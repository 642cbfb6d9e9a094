/** Ordered property lists: the `Object.entries` view of a JavaScript object,
    and the one write primitive (`Put`) behind property assignment, object
    spread and `Object.fromEntries`. A JavaScript object never holds the same
    key twice, so the lists built here keep their keys distinct; an input
    list may repeat keys, and then a later entry overwrites the value of an
    earlier one while keeping the earlier one's position. */
module Entries {
  import opened Js

  function KeySet(es: seq<Field>): set<string>
  {
    set i | 0 <= i < |es| :: es[i].key
  }

  lemma KeySetConcat(a: seq<Field>, b: seq<Field>)
    ensures KeySet(a + b) == KeySet(a) + KeySet(b)
  {
    forall k | k in KeySet(a + b)
      ensures k in KeySet(a) + KeySet(b)
    {
      var i :| 0 <= i < |a + b| && (a + b)[i].key == k;
      if i >= |a| {
        assert b[i - |a|].key == k;
      }
    }
    forall k | k in KeySet(a)
      ensures k in KeySet(a + b)
    {
      var i :| 0 <= i < |a| && a[i].key == k;
      assert (a + b)[i].key == k;
    }
    forall k | k in KeySet(b)
      ensures k in KeySet(a + b)
    {
      var i :| 0 <= i < |b| && b[i].key == k;
      assert (a + b)[|a| + i].key == k;
    }
  }

  lemma KeySetSingleton(e: Field)
    ensures KeySet([e]) == {e.key}
  {
    assert [e][0].key == e.key;
  }

  predicate DistinctKeys(es: seq<Field>)
  {
    forall i, j :: 0 <= i < j < |es| ==> es[i].key != es[j].key
  }

  /** A value every object of which, at any depth, has distinct keys: an
      object is its list of own properties, so every value the client
      receives or builds is of this kind. `JSON.parse` has already settled
      a key the text repeats before the client sees the body. */
  predicate WellFormed(v: Value)
    decreases v
  {
    match v
    case Arr(items) => forall i :: 0 <= i < |items| ==> WellFormed(items[i])
    case Obj(fields) =>
      DistinctKeys(fields) && forall i :: 0 <= i < |fields| ==> WellFormed(fields[i].val)
    case _ => true
  }

  /** Property read `obj[k]`: the value of the first entry with key `k`. */
  function Lookup(es: seq<Field>, k: string): (r: Option<Value>)
    ensures r.Some? ==> Field(k, r.value) in es
  {
    if |es| == 0 then None
    else if es[0].key == k then Some(es[0].val)
    else Lookup(es[1..], k)
  }

  /** A read finds a value exactly for the keys the list holds. */
  lemma {:induction false} LookupDefined(es: seq<Field>, k: string)
    ensures Lookup(es, k).Some? <==> k in KeySet(es)
    decreases |es|
  {
    if |es| > 0 && es[0].key != k {
      KeySetConcat([es[0]], es[1..]);
      assert es == [es[0]] + es[1..];
      LookupDefined(es[1..], k);
    }
  }

  /** The value of the LAST entry with key `k`, scanning from the back. */
  function LastValue(es: seq<Field>, k: string): (r: Option<Value>)
    ensures r.Some? <==> k in KeySet(es)
  {
    if |es| == 0 then None
    else if es[|es| - 1].key == k then Some(es[|es| - 1].val)
    else
      KeySetConcat(es[..|es| - 1], [es[|es| - 1]]);
      assert es == es[..|es| - 1] + [es[|es| - 1]];
      LastValue(es[..|es| - 1], k)
  }

  /** Property assignment `obj[k] = v`: an existing key keeps its position
      and takes the new value; a new key is appended. */
  function Put(es: seq<Field>, k: string, v: Value): seq<Field>
    decreases |es|
  {
    if |es| == 0 then [Field(k, v)]
    else if es[0].key == k then [Field(k, v)] + es[1..]
    else [es[0]] + Put(es[1..], k, v)
  }

  /** Assignment introduces no entry other than `k: v`. */
  lemma {:induction false} PutEntries(es: seq<Field>, k: string, v: Value)
    ensures forall e :: e in Put(es, k, v) ==> e in es || e == Field(k, v)
    decreases |es|
  {
    if |es| > 0 && es[0].key != k {
      PutEntries(es[1..], k, v);
      assert Put(es, k, v) == [es[0]] + Put(es[1..], k, v);
      assert forall e :: e in es[1..] ==> e in es;
    } else if |es| > 0 {
      assert forall e :: e in es[1..] ==> e in es;
    }
  }

  /** Assignment adds exactly `k` to the keys, grows the list by one only
      for a new key, introduces no entry but `k: v`, and keeps keys
      distinct. */
  lemma {:induction false} PutShape(es: seq<Field>, k: string, v: Value)
    ensures KeySet(Put(es, k, v)) == KeySet(es) + {k}
    ensures |Put(es, k, v)| == if k in KeySet(es) then |es| else |es| + 1
    ensures forall e :: e in Put(es, k, v) ==> e in es || e == Field(k, v)
    ensures DistinctKeys(es) ==> DistinctKeys(Put(es, k, v))
    decreases |es|
  {
    PutEntries(es, k, v);
    if |es| == 0 {
      KeySetSingleton(Field(k, v));
    } else if es[0].key == k {
      KeySetConcat([es[0]], es[1..]);
      KeySetConcat([Field(k, v)], es[1..]);
      assert es == [es[0]] + es[1..];
      KeySetSingleton(es[0]);
      KeySetSingleton(Field(k, v));
    } else {
      var tail := Put(es[1..], k, v);
      PutShape(es[1..], k, v);
      KeySetConcat([es[0]], es[1..]);
      KeySetConcat([es[0]], tail);
      KeySetSingleton(es[0]);
      assert es == [es[0]] + es[1..];
      assert Put(es, k, v) == [es[0]] + tail;
      assert DistinctKeys(es) ==> es[0].key !in KeySet(es[1..]);
    }
  }

  /** After `obj[k] = v`, reading `k` gives `v` and every other key reads
      as before. */
  lemma {:induction false} PutLookup(es: seq<Field>, k: string, v: Value, k': string)
    ensures Lookup(Put(es, k, v), k') == if k' == k then Some(v) else Lookup(es, k')
    decreases |es|
  {
    if |es| > 0 && es[0].key != k {
      PutLookup(es[1..], k, v, k');
    }
  }

  /** Successive assignments of `es` onto `target`, left to right: object
      spread `{...target, ...es}` and, from an empty target,
      `Object.fromEntries(es)`. */
  function Assign(target: seq<Field>, es: seq<Field>): seq<Field>
    decreases |es|
  {
    if |es| == 0 then target
    else Put(Assign(target, es[..|es| - 1]), es[|es| - 1].key, es[|es| - 1].val)
  }

  /** Assignment yields exactly the union of the keys, no more entries than
      were given, only given entries, and distinct keys from a target with
      distinct keys. */
  lemma {:induction false} AssignShape(target: seq<Field>, es: seq<Field>)
    ensures KeySet(Assign(target, es)) == KeySet(target) + KeySet(es)
    ensures |Assign(target, es)| <= |target| + |es|
    ensures forall e :: e in Assign(target, es) ==> e in target || e in es
    ensures DistinctKeys(target) ==> DistinctKeys(Assign(target, es))
    decreases |es|
  {
    if |es| > 0 {
      var init := es[..|es| - 1];
      var last := es[|es| - 1];
      KeySetConcat(init, [last]);
      KeySetSingleton(last);
      assert es == init + [last];
      AssignShape(target, init);
      PutShape(Assign(target, init), last.key, last.val);
    }
  }

  function FromEntries(es: seq<Field>): seq<Field>
  {
    Assign([], es)
  }

  /** A later assignment wins: after `Assign`, each key reads as the last
      value `es` gives it, or as in `target` when `es` does not mention it. */
  lemma {:induction false} AssignLookup(target: seq<Field>, es: seq<Field>, k: string)
    ensures Lookup(Assign(target, es), k)
         == if k in KeySet(es) then LastValue(es, k) else Lookup(target, k)
    decreases |es|
  {
    if |es| > 0 {
      var init := es[..|es| - 1];
      var last := es[|es| - 1];
      KeySetConcat(init, [last]);
      KeySetSingleton(last);
      assert es == init + [last];
      AssignLookup(target, init, k);
      PutLookup(Assign(target, init), last.key, last.val, k);
    }
  }

  /** `Object.fromEntries` keeps one entry per distinct key, so the result
      never has more keys than the input has entries. */
  lemma FromEntriesShape(es: seq<Field>)
    ensures DistinctKeys(FromEntries(es))
    ensures KeySet(FromEntries(es)) == KeySet(es)
    ensures |FromEntries(es)| <= |es|
    ensures forall k :: Lookup(FromEntries(es), k) == LastValue(es, k)
  {
    AssignShape([], es);
    forall k
      ensures Lookup(FromEntries(es), k) == LastValue(es, k)
    {
      AssignLookup([], es, k);
    }
  }

  /** On a list with distinct keys the first and the last entry with a key
      are the same entry, so both reads agree. */
  lemma LookupIsLastOnDistinct(es: seq<Field>, k: string)
    requires DistinctKeys(es)
    ensures Lookup(es, k) == LastValue(es, k)
  {
    FromEntriesOfDistinct(es);
    FromEntriesShape(es);
  }

  /** Assigning a key that is not yet present appends it. */
  lemma {:induction false} PutFresh(es: seq<Field>, k: string, v: Value)
    requires k !in KeySet(es)
    ensures Put(es, k, v) == es + [Field(k, v)]
    decreases |es|
  {
    if |es| > 0 {
      KeySetConcat([es[0]], es[1..]);
      assert es == [es[0]] + es[1..];
      PutFresh(es[1..], k, v);
    }
  }

  /** On a list whose keys are already distinct, `Object.fromEntries`
      rebuilds the same list. */
  lemma {:induction false} FromEntriesOfDistinct(es: seq<Field>)
    requires DistinctKeys(es)
    ensures FromEntries(es) == es
    decreases |es|
  {
    if |es| > 0 {
      var init := es[..|es| - 1];
      var last := es[|es| - 1];
      assert DistinctKeys(init);
      FromEntriesOfDistinct(init);
      assert last.key !in KeySet(init);
      PutFresh(init, last.key, last.val);
      assert init + [last] == es;
    }
  }

  /** Assigning a key the value it already reads as changes nothing. */
  lemma {:induction false} PutSame(es: seq<Field>, k: string, v: Value)
    requires Lookup(es, k) == Some(v)
    ensures Put(es, k, v) == es
    decreases |es|
  {
    assert es == [es[0]] + es[1..];
    if es[0].key != k {
      PutSame(es[1..], k, v);
    }
  }

  /** Two assignments to the same key: the second one wins. */
  lemma {:induction false} PutPut(es: seq<Field>, k: string, v1: Value, v2: Value)
    ensures Put(Put(es, k, v1), k, v2) == Put(es, k, v2)
    decreases |es|
  {
    if |es| > 0 && es[0].key != k {
      PutPut(es[1..], k, v1, v2);
    }
  }

  /** The entry at index `i` is the last one with its key, so its value is
      the one `LastValue` finds. */
  lemma {:induction false} LastValueAt(es: seq<Field>, i: int)
    requires 0 <= i < |es|
    requires forall j :: i < j < |es| ==> es[j].key != es[i].key
    ensures LastValue(es, es[i].key) == Some(es[i].val)
    decreases |es|
  {
    if i < |es| - 1 {
      LastValueAt(es[..|es| - 1], i);
    }
  }
}
