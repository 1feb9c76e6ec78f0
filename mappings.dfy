/**
 * The column-to-caption mapping of the prototype page, a `Record<string, string>`.
 * JavaScript objects remember the order in which their keys were first set, and
 * `Object.keys` / `Object.values` report that order, so the record is modelled as
 * an association list in insertion order with distinct keys.
 */
module Mappings {
  import opened Wrappers
  import opened Sequences

  /** One key of the record: a CSV column name and the caption it is mapped to. */
  datatype Entry = Entry(column: string, caption: string)

  type Mapping = seq<Entry>

  /** A record holds each key once. */
  predicate WellFormed(m: Mapping) {
    Distinct(Keys(m))
  }

  /** `Object.keys(m)` */
  function Keys(m: Mapping): (r: seq<string>)
    ensures |r| == |m|
    ensures forall i :: 0 <= i < |m| ==> r[i] == m[i].column
  {
    if m == [] then [] else [m[0].column] + Keys(m[1..])
  }

  /** `Object.values(m)` */
  function Values(m: Mapping): (r: seq<string>)
    ensures |r| == |m|
    ensures forall i :: 0 <= i < |m| ==> r[i] == m[i].caption
  {
    if m == [] then [] else [m[0].caption] + Values(m[1..])
  }

  /** The caption stored under the own key `k`, or `None` when `k` is not a key. */
  function Get(m: Mapping, k: string): Option<string> {
    if m == [] then None
    else if m[0].column == k then Some(m[0].caption)
    else Get(m[1..], k)
  }

  /**
   * The properties every object literal inherits from `Object.prototype`. Reading
   * one of them from a record that does not hold it as its own key gives a
   * function or an object, never `undefined`.
   */
  const InheritedNames: set<string> := {
    "constructor", "hasOwnProperty", "isPrototypeOf", "propertyIsEnumerable",
    "toLocaleString", "toString", "valueOf", "__proto__",
    "__defineGetter__", "__defineSetter__", "__lookupGetter__", "__lookupSetter__"}

  /**
   * `!!m[c]`: an own key is truthy when its caption is not the empty string; a
   * name that is not an own key is truthy exactly when it is inherited.
   */
  predicate IsMapped(m: Mapping, c: string) {
    match Get(m, c)
    case Some(caption) => caption != ""
    case None => c in InheritedNames
  }

  /** `{...m, [k]: v}`: an existing key keeps its position, a new key goes last. */
  function Put(m: Mapping, k: string, v: string): Mapping {
    if m == [] then [Entry(k, v)]
    else if m[0].column == k then [Entry(k, v)] + m[1..]
    else [m[0]] + Put(m[1..], k, v)
  }

  /** A copy of `m` with `delete copy[k]` applied. */
  function Remove(m: Mapping, k: string): Mapping {
    if m == [] then []
    else if m[0].column == k then Remove(m[1..], k)
    else [m[0]] + Remove(m[1..], k)
  }

  /** A key is found exactly when it is one of `Object.keys`, and what is found is one of `Object.values`. */
  lemma {:induction false} GetSpec(m: Mapping, k: string)
    ensures Get(m, k).Some? <==> k in Keys(m)
    ensures Get(m, k).Some? ==> Get(m, k).value in Values(m)
    ensures Get(m, k).Some? ==> Entry(k, Get(m, k).value) in m
  {
    if m != [] {
      GetSpec(m[1..], k);
      assert Keys(m) == [m[0].column] + Keys(m[1..]);
      assert Values(m) == [m[0].caption] + Values(m[1..]);
    }
  }

  /** `{...m, [k]: v}` keeps the key order, with a new key appended. */
  lemma {:induction false} PutKeys(m: Mapping, k: string, v: string)
    ensures Keys(Put(m, k, v)) == if k in Keys(m) then Keys(m) else Keys(m) + [k]
  {
    if m != [] {
      assert Keys(m) == [m[0].column] + Keys(m[1..]);
      if m[0].column != k {
        PutKeys(m[1..], k, v);
        assert Keys(Put(m, k, v)) == [m[0].column] + Keys(Put(m[1..], k, v));
      }
    }
  }

  /** After `{...m, [k]: v}`, `k` reads `v` and every other key reads what it read before. */
  lemma {:induction false} PutGet(m: Mapping, k: string, v: string)
    ensures Get(Put(m, k, v), k) == Some(v)
    ensures forall k' :: k' != k ==> Get(Put(m, k, v), k') == Get(m, k')
  {
    if m != [] && m[0].column != k {
      PutGet(m[1..], k, v);
    }
  }

  /**
   * After `{...m, [k]: v}`: `k` reads `v`, every other key reads what it read
   * before, the key order is kept with a new key appended, and the record still
   * holds each key once.
   */
  lemma PutSpec(m: Mapping, k: string, v: string)
    requires WellFormed(m)
    ensures WellFormed(Put(m, k, v))
    ensures Get(Put(m, k, v), k) == Some(v)
    ensures forall k' :: k' != k ==> Get(Put(m, k, v), k') == Get(m, k')
    ensures Keys(Put(m, k, v)) == if k in Keys(m) then Keys(m) else Keys(m) + [k]
  {
    PutKeys(m, k, v);
    PutGet(m, k, v);
  }

  /** After deleting `k` from a copy, `k` is gone and every other key reads what it read before. */
  lemma {:induction false} RemoveGet(m: Mapping, k: string)
    ensures Get(Remove(m, k), k) == None
    ensures forall k' :: k' != k ==> Get(Remove(m, k), k') == Get(m, k')
  {
    if m != [] {
      RemoveGet(m[1..], k);
    }
  }

  /**
   * The keys left after deleting `k` are the other keys, in their old order;
   * deleting an absent key changes nothing.
   */
  lemma {:induction false} RemoveKeys(m: Mapping, k: string)
    ensures Keys(Remove(m, k)) == Without(Keys(m), k)
    ensures forall k' :: k' in Keys(Remove(m, k)) <==> k' in Keys(m) && k' != k
    ensures k !in Keys(m) ==> Remove(m, k) == m
  {
    if m != [] {
      RemoveKeys(m[1..], k);
      assert Keys(m) == [m[0].column] + Keys(m[1..]);
      if m[0].column != k {
        assert Keys(Remove(m, k)) == [m[0].column] + Keys(Remove(m[1..], k));
      }
    }
  }

  /** Deleting a key keeps a record's keys distinct. */
  lemma {:induction false} RemoveKeepsWellFormed(m: Mapping, k: string)
    requires WellFormed(m)
    ensures WellFormed(Remove(m, k))
  {
    if m != [] {
      assert Keys(m) == [m[0].column] + Keys(m[1..]);
      RemoveKeepsWellFormed(m[1..], k);
      if m[0].column != k {
        var rest := Keys(Remove(m[1..], k));
        assert Keys(Remove(m, k)) == [m[0].column] + rest;
        RemoveKeys(m[1..], k);
        DistinctCons(m[0].column, rest);
      }
    }
  }

  /**
   * After deleting `k` from a copy: `k` is gone, every other key reads what it read
   * before and keeps its relative order, deleting an absent key changes nothing,
   * and the record still holds each key once.
   */
  lemma RemoveSpec(m: Mapping, k: string)
    requires WellFormed(m)
    ensures WellFormed(Remove(m, k))
    ensures Get(Remove(m, k), k) == None
    ensures forall k' :: k' != k ==> Get(Remove(m, k), k') == Get(m, k')
    ensures k !in Keys(m) ==> Remove(m, k) == m
    ensures Keys(Remove(m, k)) == Without(Keys(m), k)
    ensures forall k' :: k' in Keys(Remove(m, k)) <==> k' in Keys(m) && k' != k
  {
    RemoveGet(m, k);
    RemoveKeys(m, k);
    RemoveKeepsWellFormed(m, k);
  }

  /** Mapping a column that had no mapping and then removing it gives back the original record. */
  lemma {:induction false} PutThenRemove(m: Mapping, k: string, v: string)
    requires k !in Keys(m)
    ensures Remove(Put(m, k, v), k) == m
  {
    if m != [] {
      assert Keys(m) == [m[0].column] + Keys(m[1..]);
      PutThenRemove(m[1..], k, v);
    }
  }

  /** A new key's caption is appended to `Object.values`. */
  lemma {:induction false} PutNewKeyValues(m: Mapping, k: string, v: string)
    requires k !in Keys(m)
    ensures Values(Put(m, k, v)) == Values(m) + [v]
  {
    if m != [] {
      assert Keys(m) == [m[0].column] + Keys(m[1..]);
      PutNewKeyValues(m[1..], k, v);
      assert Values(Put(m, k, v)) == [m[0].caption] + Values(Put(m[1..], k, v));
      assert Values(m) == [m[0].caption] + Values(m[1..]);
    }
  }

  /**
   * `{...m, [k]: v}` does not look at the other values: mapping a new column to a
   * caption that is already in use leaves that caption in use one more time.
   */
  lemma PutIgnoresCaptionsInUse(m: Mapping, k: string, v: string)
    requires k !in Keys(m)
    ensures multiset(Values(Put(m, k, v)))[v] == multiset(Values(m))[v] + 1
  {
    PutNewKeyValues(m, k, v);
    assert multiset(Values(m) + [v]) == multiset(Values(m)) + multiset{v};
  }
}
