/** Request bodies of the two switch-writing calls. The server spells the
    identifier `ID`; the client spells it `id`. */
module WireBody {
  import opened Js
  import opened Entries
  import opened KeyCase
  import opened FormatBody

  /** The body `setEnabled` sends: the identifier under the server's
      spelling `ID`, then the status. */
  function SetEnabledBody(id: string, status: bool): Value
  {
    Obj([Field("ID", Str(id)), Field("status", Bool(status))])
  }

  /** The body carries exactly the two fields, the identifier under the
      server's spelling only; normalising it gives the client's record. */
  lemma SetEnabledBodyShape(id: string, status: bool)
    ensures SetEnabledBody(id, status).Obj?
    ensures KeySet(SetEnabledBody(id, status).fields) == {"ID", "status"}
    ensures Lookup(SetEnabledBody(id, status).fields, "ID") == Some(Str(id))
    ensures Lookup(SetEnabledBody(id, status).fields, "status") == Some(Bool(status))
    ensures Format(SetEnabledBody(id, status))
         == Success(Obj([Field("id", Str(id)), Field("status", Bool(status))]))
  {
    var fs := SetEnabledBody(id, status).fields;
    KeySetConcat([fs[0]], [fs[1]]);
    KeySetSingleton(fs[0]);
    KeySetSingleton(fs[1]);
    assert fs == [fs[0]] + [fs[1]];
    NormalizeKeyShape("status");
    var es := [Field("id", Str(id)), Field("status", Bool(status))];
    assert FormatFields(fs).value == es;
    assert DistinctKeys(es);
    FromEntriesOfDistinct(es);
  }

  /** The rewrite `setSwitches` applies to one parameter: a copy of the
      parameter with `id` set to `undefined` and `ID` added, holding the old
      `id`. The parameter is an object, so a key its entry list repeats
      holds the last value given to it. */
  function SwitchWireParam(p: seq<Field>): (w: seq<Field>)
    ensures KeySet(w) == KeySet(p) + {"id", "ID"}
    ensures Lookup(w, "id") == Some(Undefined)
    ensures Lookup(w, "ID") == Some(LastValue(p, "id").GetOr(Undefined))
  {
    var o := FromEntries(p);
    var x := Lookup(o, "id").GetOr(Undefined);
    FromEntriesShape(p);
    PutShape(o, "id", Undefined);
    PutShape(Put(o, "id", Undefined), "ID", x);
    PutLookup(o, "id", Undefined, "id");
    PutLookup(Put(o, "id", Undefined), "ID", x, "id");
    PutLookup(Put(o, "id", Undefined), "ID", x, "ID");
    Put(Put(o, "id", Undefined), "ID", x)
  }

  /** Only the identifier moves: the keys stay distinct, and every field
      other than `id` and `ID` keeps its value (`undefined` under `id` is
      dropped later by `JSON.stringify`). */
  lemma SwitchWireParamFields(p: seq<Field>)
    ensures DistinctKeys(SwitchWireParam(p))
    ensures forall k :: k != "id" && k != "ID" ==> Lookup(SwitchWireParam(p), k) == LastValue(p, k)
  {
    var o := FromEntries(p);
    FromEntriesShape(p);
    var w1 := Put(o, "id", Undefined);
    var x := Lookup(o, "id").GetOr(Undefined);
    assert SwitchWireParam(p) == Put(w1, "ID", x);
    forall k | k != "id" && k != "ID"
      ensures Lookup(SwitchWireParam(p), k) == LastValue(p, k)
    {
      PutLookup(o, "id", Undefined, k);
      PutLookup(w1, "ID", x, k);
    }
    PutShape(o, "id", Undefined);
    PutShape(w1, "ID", x);
  }

  /** A key in the client's shape is never `"ID"`. */
  lemma NormalHasNoUpperId(p: seq<Field>)
    requires Normal(Obj(p))
    ensures "ID" !in KeySet(p)
  {
    forall i | 0 <= i < |p|
      ensures p[i].key != "ID"
    {
      NormalizeKeyShape(p[i].key);
    }
  }

  /** Setting a normal key of a normal object to `undefined` keeps it normal. */
  lemma PutUndefinedKeepsNormal(p: seq<Field>, k: string)
    requires Normal(Obj(p))
    requires NormalizeKey(k) == k
    ensures Normal(Obj(Put(p, k, Undefined)))
  {
    var w := Put(p, k, Undefined);
    PutShape(p, k, Undefined);
    forall i | 0 <= i < |w|
      ensures NormalizeKey(w[i].key) == w[i].key && Normal(w[i].val)
    {
      assert w[i] in w;
      if w[i] != Field(k, Undefined) {
        var j :| 0 <= j < |p| && p[j] == w[i];
      }
    }
  }

  /** The entries of a normal object, followed by one more entry whose
      value is normal, format to themselves except for the last key. */
  lemma NormalFieldsFormat(fs: seq<Field>, last: Field)
    requires Normal(Obj(fs))
    requires Normal(last.val)
    ensures FormatFields(fs + [last])
         == Success(fs + [Field(NormalizeKey(last.key), last.val)])
  {
    var w := fs + [last];
    forall i | 0 <= i < |w|
      ensures Format(w[i].val) == Success(w[i].val)
    {
      FormatFixesNormal(w[i].val);
    }
    var r := FormatFields(w).value;
    forall i | 0 <= i < |fs|
      ensures r[i] == fs[i]
    {
      assert w[i] == fs[i];
      assert NormalizeKey(fs[i].key) == fs[i].key;
    }
    assert r[|fs|] == Field(NormalizeKey(last.key), last.val);
    assert FormatFields(w).Success?;
    assert |r| == |fs| + 1;
    assert r == fs + [Field(NormalizeKey(last.key), last.val)];
  }

  /** The wire form of a parameter with an `id`: the parameter with `id`
      set to `undefined`, then `ID` appended. */
  lemma SwitchWireParamLayout(p: seq<Field>)
    requires Normal(Obj(p))
    ensures SwitchWireParam(p)
         == Put(p, "id", Undefined) + [Field("ID", Lookup(p, "id").GetOr(Undefined))]
  {
    FromEntriesOfDistinct(p);
    NormalHasNoUpperId(p);
    PutShape(p, "id", Undefined);
    PutFresh(Put(p, "id", Undefined), "ID", Lookup(p, "id").GetOr(Undefined));
  }

  /** Normalising the wire form of a switch parameter that is in the
      client's shape and has an `id` gives back the parameter. */
  lemma SwitchWireRoundTrip(p: seq<Field>)
    requires Normal(Obj(p))
    requires "id" in KeySet(p)
    ensures Format(Obj(SwitchWireParam(p))) == Success(Obj(p))
  {
    LookupDefined(p, "id");
    var x := Lookup(p, "id").value;
    var w1 := Put(p, "id", Undefined);
    SwitchWireParamLayout(p);
    NormalizeKeyShape("id");
    PutUndefinedKeepsNormal(p, "id");
    assert Normal(x) by {
      var j :| 0 <= j < |p| && p[j] == Field("id", x);
    }
    NormalFieldsFormat(w1, Field("ID", x));
    var w := w1 + [Field("ID", x)];
    var es := w1 + [Field("id", x)];
    assert FormatFields(w) == Success(es);
    assert Format(Obj(w)) == Success(Obj(FromEntries(es)));
    assert es[..|es| - 1] == w1;
    FromEntriesOfDistinct(w1);
    assert FromEntries(es) == Put(w1, "id", x);
    PutPut(p, "id", Undefined, x);
    PutSame(p, "id", x);
    assert Put(w1, "id", x) == p;
  }

  /** A value or an array of values (`MaybeArray`). */
  datatype MaybeArray<T> = One(item: T) | Many(items: seq<T>)

  /** The switch parameters in the client's own form. */
  function ParamsValue(params: MaybeArray<seq<Field>>): Value
  {
    match params
    case One(p) => Obj(p)
    case Many(ps) => Arr(seq(|ps|, i requires 0 <= i < |ps| => Obj(ps[i])))
  }

  /** The body `setSwitches` sends: an array of parameters is rewritten
      element by element, a single parameter is rewritten on its own. */
  function SetSwitchesBody(params: MaybeArray<seq<Field>>): (b: Value)
    ensures params.One? <==> b.Obj?
    ensures params.Many? <==> b.Arr?
    ensures params.Many? ==> |b.items| == |params.items|
  {
    match params
    case One(p) => Obj(SwitchWireParam(p))
    case Many(ps) => Arr(seq(|ps|, i requires 0 <= i < |ps| => Obj(SwitchWireParam(ps[i]))))
  }

  /** `b` is the wire form of parameter `p`: an object with distinct keys
      whose `ID` holds the parameter's `id`, whose `id` holds `undefined`,
      and whose every other key holds the parameter's value. */
  ghost predicate CarriesParam(b: Value, p: seq<Field>)
  {
    && b.Obj?
    && DistinctKeys(b.fields)
    && Lookup(b.fields, "ID") == Some(LastValue(p, "id").GetOr(Undefined))
    && Lookup(b.fields, "id") == Some(Undefined)
    && forall k :: k != "id" && k != "ID" ==> Lookup(b.fields, k) == LastValue(p, k)
  }

  /** Every parameter, single or in the array, goes on the wire with only
      its identifier moved. */
  lemma SetSwitchesBodyPointwise(params: MaybeArray<seq<Field>>)
    ensures params.One? ==> CarriesParam(SetSwitchesBody(params), params.item)
    ensures params.Many? ==> forall i :: 0 <= i < |params.items| ==>
      CarriesParam(SetSwitchesBody(params).items[i], params.items[i])
  {
    match params
    case One(p) =>
      SwitchWireParamFields(p);
    case Many(ps) =>
      forall i | 0 <= i < |ps|
        ensures CarriesParam(SetSwitchesBody(params).items[i], ps[i])
      {
        SwitchWireParamFields(ps[i]);
      }
  }

  predicate WellFormedParam(p: seq<Field>)
  {
    Normal(Obj(p)) && "id" in KeySet(p)
  }

  /** Normalising the whole `setSwitches` body gives back the parameters,
      in the same single-or-array shape. */
  lemma SetSwitchesRoundTrip(params: MaybeArray<seq<Field>>)
    requires params.One? ==> WellFormedParam(params.item)
    requires params.Many? ==> forall i :: 0 <= i < |params.items| ==> WellFormedParam(params.items[i])
    ensures Format(SetSwitchesBody(params)) == Success(ParamsValue(params))
  {
    match params
    case One(p) =>
      SwitchWireRoundTrip(p);
    case Many(ps) =>
      var b := SetSwitchesBody(params);
      forall i | 0 <= i < |ps|
        ensures Format(b.items[i]) == Success(Obj(ps[i]))
      {
        SwitchWireRoundTrip(ps[i]);
      }
      assert FormatItems(b.items).value == ParamsValue(params).items;
  }
}
