/**
 * JSON values and the JSON text that `JSON.stringify` produces and `JSON.parse` reads.
 *
 * The text is modelled at the level of its lexical tokens: a `Wire` is the
 * sequence of tokens of one JSON text. Commas and colons carry no
 * information and are left out; the character-level spelling (quotes,
 * escapes, digits, UTF-8 bytes) is not modelled.
 */
module Json {

  datatype Option<+T> = None | Some(value: T)

  /** A JSON value. Object members keep their order, as JavaScript objects do. */
  datatype Json =
    | JNull
    | JBool(b: bool)
    | JNum(n: int)
    | JStr(s: string)
    | JArr(items: seq<Json>)
    | JObj(members: seq<Member>)

  datatype Member = Member(key: string, value: Json)

  datatype Token =
    | TNull
    | TTrue
    | TFalse
    | TNum(n: int)
    | TStr(s: string)
    | TBeginArray
    | TEndArray
    | TBeginObject
    | TEndObject

  type Wire = seq<Token>

  /** JavaScript's `===` on two decoded values: primitives compare by value;
      two arrays or objects obtained from different parses are never identical. */
  predicate StrictEquals(a: Json, b: Json)
  {
    (a.JNull? || a.JBool? || a.JNum? || a.JStr?) && a == b
  }

  /** `JSON.stringify` */
  function Stringify(v: Json): Wire
    decreases v, 1
  {
    match v
    case JNull => [TNull]
    case JBool(b) => if b then [TTrue] else [TFalse]
    case JNum(n) => [TNum(n)]
    case JStr(s) => [TStr(s)]
    case JArr(items) => [TBeginArray] + ItemsText(items) + [TEndArray]
    case JObj(members) => [TBeginObject] + MembersText(members) + [TEndObject]
  }

  function ItemsText(items: seq<Json>): Wire
    decreases items, 0
  {
    if items == [] then [] else Stringify(items[0]) + ItemsText(items[1..])
  }

  function MembersText(members: seq<Member>): Wire
    decreases members, 0
  {
    if members == [] then []
    else [TStr(members[0].key)] + Stringify(members[0].value) + MembersText(members[1..])
  }

  /** Reads one value from the front of `w` and returns it with the tokens after it. */
  function ParseValue(w: Wire): (r: Option<(Json, Wire)>)
    ensures r.Some? ==> |r.value.1| < |w|
    decreases |w|, 1
  {
    if w == [] then None
    else match w[0]
      case TNull => Some((JNull, w[1..]))
      case TTrue => Some((JBool(true), w[1..]))
      case TFalse => Some((JBool(false), w[1..]))
      case TNum(n) => Some((JNum(n), w[1..]))
      case TStr(s) => Some((JStr(s), w[1..]))
      case TBeginArray =>
        (match ParseItems(w[1..])
         case None => None
         case Some((items, rest)) => Some((JArr(items), rest)))
      case TBeginObject =>
        (match ParseMembers(w[1..])
         case None => None
         case Some((members, rest)) => Some((JObj(members), rest)))
      case _ => None
  }

  /** Reads array elements up to and including the closing bracket. */
  function ParseItems(w: Wire): (r: Option<(seq<Json>, Wire)>)
    ensures r.Some? ==> |r.value.1| < |w|
    decreases |w|, 2
  {
    if w == [] then None
    else if w[0] == TEndArray then Some(([], w[1..]))
    else match ParseValue(w)
      case None => None
      case Some((v, rest)) =>
        (match ParseItems(rest)
         case None => None
         case Some((vs, rest')) => Some(([v] + vs, rest')))
  }

  /** Reads object members up to and including the closing brace. */
  function ParseMembers(w: Wire): (r: Option<(seq<Member>, Wire)>)
    ensures r.Some? ==> |r.value.1| < |w|
    decreases |w|, 2
  {
    if w == [] then None
    else if w[0] == TEndObject then Some(([], w[1..]))
    else if !w[0].TStr? then None
    else match ParseValue(w[1..])
      case None => None
      case Some((v, rest)) =>
        (match ParseMembers(rest)
         case None => None
         case Some((ms, rest')) => Some(([Member(w[0].s, v)] + ms, rest')))
  }

  /** `JSON.parse`: `None` stands for the SyntaxError it throws. */
  function Parse(w: Wire): Option<Json>
  {
    match ParseValue(w)
    case Some((v, rest)) => if rest == [] then Some(v) else None
    case None => None
  }

  lemma {:induction false} ParseValueStringify(v: Json, rest: Wire)
    ensures ParseValue(Stringify(v) + rest) == Some((v, rest))
    decreases v, 1
  {
    match v
    case JNull =>
    case JBool(b) =>
    case JNum(n) =>
    case JStr(s) =>
    case JArr(items) => ParseArrayStringify(items, rest);
    case JObj(members) => ParseObjectStringify(members, rest);
  }

  lemma {:induction false} ParseArrayStringify(items: seq<Json>, rest: Wire)
    ensures ParseValue(Stringify(JArr(items)) + rest) == Some((JArr(items), rest))
    decreases items, 2
  {
    var w := Stringify(JArr(items)) + rest;
    assert w[0] == TBeginArray && w[1..] == ItemsText(items) + [TEndArray] + rest;
    ParseItemsText(items, rest);
  }

  lemma {:induction false} ParseObjectStringify(members: seq<Member>, rest: Wire)
    ensures ParseValue(Stringify(JObj(members)) + rest) == Some((JObj(members), rest))
    decreases members, 2
  {
    var w := Stringify(JObj(members)) + rest;
    assert w[0] == TBeginObject && w[1..] == MembersText(members) + [TEndObject] + rest;
    ParseMembersText(members, rest);
  }

  lemma {:induction false} ParseItemsText(items: seq<Json>, rest: Wire)
    ensures ParseItems(ItemsText(items) + [TEndArray] + rest) == Some((items, rest))
    decreases items, 0
  {
    var w := ItemsText(items) + [TEndArray] + rest;
    if items == [] {
      assert w == [TEndArray] + rest;
    } else {
      var tail := ItemsText(items[1..]) + [TEndArray] + rest;
      assert w == Stringify(items[0]) + tail;
      ParseValueStringify(items[0], tail);
      ParseItemsText(items[1..], rest);
      assert Stringify(items[0]) != [];
      assert w[0] != TEndArray by {
        assert w[0] == Stringify(items[0])[0];
      }
      assert [items[0]] + items[1..] == items;
    }
  }

  lemma {:induction false} ParseMembersText(members: seq<Member>, rest: Wire)
    ensures ParseMembers(MembersText(members) + [TEndObject] + rest) == Some((members, rest))
    decreases members, 0
  {
    var w := MembersText(members) + [TEndObject] + rest;
    if members == [] {
      assert w == [TEndObject] + rest;
    } else {
      var m := members[0];
      var tail := MembersText(members[1..]) + [TEndObject] + rest;
      assert w == [TStr(m.key)] + (Stringify(m.value) + tail);
      assert w[1..] == Stringify(m.value) + tail;
      ParseValueStringify(m.value, tail);
      ParseMembersText(members[1..], rest);
      assert [Member(m.key, m.value)] + members[1..] == members;
    }
  }

  /** `JSON.parse(JSON.stringify(v))` gives back `v`. */
  lemma ParseStringify(v: Json)
    ensures Parse(Stringify(v)) == Some(v)
  {
    ParseValueStringify(v, []);
    assert Stringify(v) + [] == Stringify(v);
  }

  /** Member access `o.key` on a decoded object; when a key occurs twice the later one wins. */
  function Lookup(v: Json, key: string): Option<Json>
  {
    if v.JObj? then LookupMember(v.members, key) else None
  }

  function LookupMember(members: seq<Member>, key: string): (r: Option<Json>)
    ensures r.Some? <==> exists i :: 0 <= i < |members| && members[i].key == key
  {
    if members == [] then None
    else
      var last := members[|members| - 1];
      if last.key == key then Some(last.value) else LookupMember(members[..|members| - 1], key)
  }

  /** The data-plane envelope `{data, userId}` written to every connected peer. */
  function Envelope(data: Json, userId: string): Json
  {
    JObj([Member("data", data), Member("userId", JStr(userId))])
  }

  /** Decoding the text of an envelope hands the receiver an object whose
      `data` and `userId` are the ones the sender put in. */
  lemma EnvelopeRoundTrip(data: Json, userId: string)
    ensures Parse(Stringify(Envelope(data, userId))).Some?
    ensures Lookup(Parse(Stringify(Envelope(data, userId))).value, "data") == Some(data)
    ensures Lookup(Parse(Stringify(Envelope(data, userId))).value, "userId") == Some(JStr(userId))
  {
    ParseStringify(Envelope(data, userId));
    var ms := [Member("data", data), Member("userId", JStr(userId))];
    assert ms[..1] == [Member("data", data)];
    assert "userId" != "data" by { assert "userId"[0] != "data"[0]; }
    assert LookupMember(ms, "data") == LookupMember(ms[..1], "data");
  }
}
