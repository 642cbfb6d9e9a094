/** `formatBodyRaw`: the recursive rewrite of a response body from the
    server's PascalCase keys to the client's camelCase keys. Arrays are
    mapped element by element, each object is rebuilt by
    `Object.fromEntries` from its rewritten entries, and every other value is
    returned as it is. `null` has `typeof` "object", reaches
    `Object.entries(null)` and throws, wherever it sits in the body. */
module FormatBody {
  import opened Js
  import opened Entries
  import opened KeyCase

  /** What `Object.entries(null)` throws. */
  const NullToObject: JsError :=
    TypeError("Cannot convert undefined or null to object", NoCause)

  /** `formatBodyRaw(body)`. */
  function Format(v: Value): (r: Result<Value>)
    ensures r.Failure? ==> r.error == NullToObject
    ensures r.Success? ==> (r.value.Arr? <==> v.Arr?) && (r.value.Obj? <==> v.Obj?)
    ensures !(v.Null? || v.Arr? || v.Obj?) ==> r == Success(v)
    ensures v.Arr? && r.Success? ==> |r.value.items| == |v.items|
    ensures v.Arr? && r.Success? ==>
      forall i :: 0 <= i < |v.items| ==>
        Format(v.items[i]).Success? && r.value.items[i] == Format(v.items[i]).value
    decreases v
  {
    match v
    case Null => Failure(NullToObject)
    case Arr(items) =>
      var vs :- FormatItems(items);
      Success(Arr(vs))
    case Obj(fields) =>
      var es :- FormatFields(fields);
      Success(Obj(FromEntries(es)))
    case _ => Success(v)
  }

  /** The array case: every element normalised, in order; the first element
      that throws makes the whole array throw. */
  function FormatItems(items: seq<Value>): (r: Result<seq<Value>>)
    ensures r.Success? <==> forall i :: 0 <= i < |items| ==> Format(items[i]).Success?
    ensures r.Success? ==> |r.value| == |items|
    ensures r.Success? ==> forall i :: 0 <= i < |items| ==> r.value[i] == Format(items[i]).value
    ensures r.Failure? ==> r.error == NullToObject
    decreases items
  {
    if |items| == 0 then Success([])
    else
      var x :- Format(items[0]);
      var xs :- FormatItems(items[1..]);
      Success([x] + xs)
  }

  /** The object case before the rebuild: every entry, in enumeration order,
      with its key rewritten and its value normalised. */
  function FormatFields(fields: seq<Field>): (r: Result<seq<Field>>)
    ensures r.Success? <==> forall i :: 0 <= i < |fields| ==> Format(fields[i].val).Success?
    ensures r.Success? ==> |r.value| == |fields|
    ensures r.Success? ==> forall i :: 0 <= i < |fields| ==>
      r.value[i] == Field(NormalizeKey(fields[i].key), Format(fields[i].val).value)
    ensures r.Failure? ==> r.error == NullToObject
    decreases fields
  {
    if |fields| == 0 then Success([])
    else
      var x :- Format(fields[0].val);
      var xs :- FormatFields(fields[1..]);
      Success([Field(NormalizeKey(fields[0].key), x)] + xs)
  }

  /** No `null` anywhere in the value. */
  predicate NullFree(v: Value)
    decreases v
  {
    match v
    case Null => false
    case Arr(items) => forall i :: 0 <= i < |items| ==> NullFree(items[i])
    case Obj(fields) => forall i :: 0 <= i < |fields| ==> NullFree(fields[i].val)
    case _ => true
  }

  /** Already in the client's shape: no `null`, every object has distinct
      keys, and every key is its own normal form. */
  predicate Normal(v: Value)
    decreases v
  {
    match v
    case Null => false
    case Arr(items) => forall i :: 0 <= i < |items| ==> Normal(items[i])
    case Obj(fields) =>
      && DistinctKeys(fields)
      && forall i :: 0 <= i < |fields| ==>
           NormalizeKey(fields[i].key) == fields[i].key && Normal(fields[i].val)
    case _ => true
  }

  /** `formatBodyRaw` throws exactly when the body holds a `null`. */
  lemma {:induction false} FormatSucceedsIffNullFree(v: Value)
    ensures Format(v).Success? <==> NullFree(v)
    decreases v
  {
    match v
    case Arr(items) =>
      forall i | 0 <= i < |items| {
        FormatSucceedsIffNullFree(items[i]);
      }
    case Obj(fields) =>
      forall i | 0 <= i < |fields| {
        FormatSucceedsIffNullFree(fields[i].val);
      }
    case _ =>
  }

  /** The entry at index `i` is the last one whose key normalises to its
      normalised key. */
  predicate LastToNormalizeTo(fields: seq<Field>, i: int)
    requires 0 <= i < |fields|
  {
    forall j :: i < j < |fields| ==> NormalizeKey(fields[j].key) != NormalizeKey(fields[i].key)
  }

  function NormalizedKeys(fields: seq<Field>): set<string>
  {
    set i | 0 <= i < |fields| :: NormalizeKey(fields[i].key)
  }

  /** An object is rebuilt with the normalised keys, each once; where two
      keys normalise alike (`"ID"` and `"id"`), the later entry's value
      wins; so the result never has more keys than the input. */
  lemma FormatObject(fields: seq<Field>)
    requires NullFree(Obj(fields))
    ensures Format(Obj(fields)).Success?
    ensures Format(Obj(fields)).value.Obj?
    ensures DistinctKeys(Format(Obj(fields)).value.fields)
    ensures KeySet(Format(Obj(fields)).value.fields) == NormalizedKeys(fields)
    ensures |Format(Obj(fields)).value.fields| <= |fields|
    ensures forall i :: 0 <= i < |fields| && LastToNormalizeTo(fields, i) ==>
      Lookup(Format(Obj(fields)).value.fields, NormalizeKey(fields[i].key))
        == Some(Format(fields[i].val).value)
  {
    FormatSucceedsIffNullFree(Obj(fields));
    var es := FormatFields(fields).value;
    FromEntriesShape(es);
    assert KeySet(es) == NormalizedKeys(fields) by {
      forall k | k in NormalizedKeys(fields) ensures k in KeySet(es) {
        var i :| 0 <= i < |fields| && NormalizeKey(fields[i].key) == k;
        assert es[i].key == k;
      }
    }
    forall i | 0 <= i < |fields| && LastToNormalizeTo(fields, i)
      ensures Lookup(FromEntries(es), NormalizeKey(fields[i].key)) == Some(Format(fields[i].val).value)
    {
      LastValueAt(es, i);
    }
  }

  /** The two spellings of the identifier key collide, and the later one
      is kept. */
  lemma FormatIdCollision(a: Value, b: Value)
    requires NullFree(a) && NullFree(b)
    ensures Format(b).Success?
    ensures Format(Obj([Field("ID", a), Field("id", b)]))
         == Success(Obj([Field("id", Format(b).value)]))
  {
    var fields := [Field("ID", a), Field("id", b)];
    FormatSucceedsIffNullFree(a);
    FormatSucceedsIffNullFree(b);
    NormalizeKeyShape("id");
    var va, vb := Format(a).value, Format(b).value;
    var es := [Field("id", va), Field("id", vb)];
    assert fields[0].val == a && fields[1].val == b;
    assert FormatFields(fields).Success?;
    assert NormalizeKey(fields[0].key) == "id" && NormalizeKey(fields[1].key) == "id";
    assert FormatFields(fields).value == es;
    assert es[..1] == [es[0]] && [es[0]][..0] == [];
    assert Assign([], [es[0]]) == Put([], "id", va);
    assert FromEntries(es) == Put(Put([], "id", va), "id", vb);
    PutPut([], "id", va, vb);
  }

  /** Whatever `formatBodyRaw` returns is in the client's shape. */
  lemma {:induction false} FormatYieldsNormal(v: Value)
    requires Format(v).Success?
    ensures Normal(Format(v).value)
    decreases v
  {
    match v
    case Arr(items) =>
      forall i | 0 <= i < |items| {
        FormatYieldsNormal(items[i]);
      }
    case Obj(fields) =>
      var es := FormatFields(fields).value;
      var out := FromEntries(es);
      FromEntriesShape(es);
      AssignShape([], es);
      forall i | 0 <= i < |out|
        ensures NormalizeKey(out[i].key) == out[i].key && Normal(out[i].val)
      {
        assert out[i] in es;
        var j :| 0 <= j < |es| && es[j] == out[i];
        NormalizeKeyIdempotent(fields[j].key);
        FormatYieldsNormal(fields[j].val);
      }
    case _ =>
  }

  /** A value in the client's shape has distinct keys at every depth, so
      whatever `formatBodyRaw` returns is a well-formed value again. */
  lemma {:induction false} NormalIsWellFormed(v: Value)
    requires Normal(v)
    ensures WellFormed(v)
    decreases v
  {
    match v
    case Arr(items) =>
      forall i | 0 <= i < |items| {
        NormalIsWellFormed(items[i]);
      }
    case Obj(fields) =>
      forall i | 0 <= i < |fields| {
        NormalIsWellFormed(fields[i].val);
      }
    case _ =>
  }

  /** A body already in the client's shape is returned unchanged. */
  lemma {:induction false} FormatFixesNormal(v: Value)
    requires Normal(v)
    ensures Format(v) == Success(v)
    decreases v
  {
    match v
    case Arr(items) =>
      forall i | 0 <= i < |items| {
        FormatFixesNormal(items[i]);
      }
      assert Format(v).value.items == items;
    case Obj(fields) =>
      forall i | 0 <= i < |fields| {
        FormatFixesNormal(fields[i].val);
      }
      var es := FormatFields(fields).value;
      assert es == fields;
      FromEntriesOfDistinct(fields);
    case _ =>
  }

  /** `formatBodyRaw(formatBodyRaw(v))` is `formatBodyRaw(v)` whenever the
      first call does not throw. */
  lemma FormatIdempotent(v: Value)
    requires NullFree(v)
    ensures Format(v).Success?
    ensures Format(Format(v).value) == Format(v)
  {
    FormatSucceedsIffNullFree(v);
    FormatYieldsNormal(v);
    FormatFixesNormal(Format(v).value);
  }

  /** An object whose keys are pairwise distinct after the rewrite is
      rebuilt entry by entry: each key rewritten, each value normalised. */
  lemma FormatRenamesKeys(fields: seq<Field>, out: seq<Field>)
    requires |out| == |fields|
    requires forall i :: 0 <= i < |fields| ==>
      out[i].key == NormalizeKey(fields[i].key) && Format(fields[i].val) == Success(out[i].val)
    requires DistinctKeys(out)
    ensures Format(Obj(fields)) == Success(Obj(out))
  {
    assert FormatFields(fields).value == out;
    FromEntriesOfDistinct(out);
  }

  /** The colour record of the test suite's chat messages. */
  lemma ColorFixture(r: real, g: real, b: real, a: real)
    ensures Format(Obj([Field("R", Num(r)), Field("G", Num(g)), Field("B", Num(b)), Field("A", Num(a))]))
         == Success(Obj([Field("r", Num(r)), Field("g", Num(g)), Field("b", Num(b)), Field("a", Num(a))]))
  {
    KeyCase.ColorFixtureKeys();
    FormatRenamesKeys(
      [Field("R", Num(r)), Field("G", Num(g)), Field("B", Num(b)), Field("A", Num(a))],
      [Field("r", Num(r)), Field("g", Num(g)), Field("b", Num(b)), Field("a", Num(a))]);
  }

  /** A chat message with the server's PascalCase keys. */
  function ServerChatMessage(timeStamp: real, serverTimeStamp: real, sender: string,
                             kind: string, message: string, color: Value): seq<Field>
  {
    [Field("TimeStamp", Num(timeStamp)), Field("ServerTimeStamp", Num(serverTimeStamp)),
     Field("Sender", Str(sender)), Field("Type", Str(kind)), Field("Message", Str(message)),
     Field("Color", color)]
  }

  /** The same message with the client's camelCase keys. */
  function ClientChatMessage(timeStamp: real, serverTimeStamp: real, sender: string,
                             kind: string, message: string, color: Value): seq<Field>
  {
    [Field("timeStamp", Num(timeStamp)), Field("serverTimeStamp", Num(serverTimeStamp)),
     Field("sender", Str(sender)), Field("type", Str(kind)), Field("message", Str(message)),
     Field("color", color)]
  }

  lemma ChatMessageKeys(timeStamp: real, serverTimeStamp: real, sender: string,
                        kind: string, message: string, color: Value, color': Value)
    ensures forall i :: 0 <= i < 6 ==>
      ClientChatMessage(timeStamp, serverTimeStamp, sender, kind, message, color')[i].key
        == NormalizeKey(ServerChatMessage(timeStamp, serverTimeStamp, sender, kind, message, color)[i].key)
  {
    KeyCase.ChatFixtureTimeKeys();
    KeyCase.ChatFixtureSenderKeys();
    KeyCase.ChatFixtureBodyKeys();
  }

  lemma ChatMessageDistinct(timeStamp: real, serverTimeStamp: real, sender: string,
                            kind: string, message: string, color': Value)
    ensures DistinctKeys(ClientChatMessage(timeStamp, serverTimeStamp, sender, kind, message, color'))
  {
  }

  /** A chat message as the test suite's server sends it, with PascalCase
      keys and a nested colour, comes out with camelCase keys throughout. */
  lemma ChatMessageFixture(timeStamp: real, serverTimeStamp: real, sender: string,
                           kind: string, message: string, r: real, g: real, b: real, a: real)
    ensures Format(Obj(ServerChatMessage(timeStamp, serverTimeStamp, sender, kind, message,
              Obj([Field("R", Num(r)), Field("G", Num(g)), Field("B", Num(b)), Field("A", Num(a))]))))
         == Success(Obj(ClientChatMessage(timeStamp, serverTimeStamp, sender, kind, message,
              Obj([Field("r", Num(r)), Field("g", Num(g)), Field("b", Num(b)), Field("a", Num(a))]))))
  {
    var color := Obj([Field("R", Num(r)), Field("G", Num(g)), Field("B", Num(b)), Field("A", Num(a))]);
    var color' := Obj([Field("r", Num(r)), Field("g", Num(g)), Field("b", Num(b)), Field("a", Num(a))]);
    ColorFixture(r, g, b, a);
    var msg := ServerChatMessage(timeStamp, serverTimeStamp, sender, kind, message, color);
    var msg' := ClientChatMessage(timeStamp, serverTimeStamp, sender, kind, message, color');
    ChatMessageKeys(timeStamp, serverTimeStamp, sender, kind, message, color, color');
    ChatMessageDistinct(timeStamp, serverTimeStamp, sender, kind, message, color');
    FormatRenamesKeys(msg, msg');
  }
}
