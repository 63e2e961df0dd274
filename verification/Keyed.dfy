/**
 Lists of configuration records found by id: the vectors of AppConfig, the
 `find*` helpers (src/common/Config.cpp:555-583) and the erase, replace and append
 steps the mutators are made of.  `ToMap` is what such a list means to a lookup.
 */
module Keyed {
  import opened Geometry

  datatype Item<T> = Item(id: string, body: T)

  /** Looks up the first record with this id. */
  function Find<T>(xs: seq<Item<T>>, id: string): Option<T> {
    if xs == [] then None
    else if xs[0].id == id then Some(xs[0].body)
    else Find(xs[1..], id)
  }

  predicate Has<T>(xs: seq<Item<T>>, id: string) { Find(xs, id).Some? }

  function Erase<T>(xs: seq<Item<T>>, id: string): seq<Item<T>> {
    if xs == [] then []
    else if xs[0].id == id then Erase(xs[1..], id)
    else [xs[0]] + Erase(xs[1..], id)
  }

  /** Overwrites the first record with the id of `x`. */
  function Replace<T>(xs: seq<Item<T>>, x: Item<T>): seq<Item<T>> {
    if xs == [] then []
    else if xs[0].id == x.id then [x] + xs[1..]
    else [xs[0]] + Replace(xs[1..], x)
  }

  function Without(ids: seq<string>, id: string): seq<string> {
    if ids == [] then []
    else if ids[0] == id then Without(ids[1..], id)
    else [ids[0]] + Without(ids[1..], id)
  }

  /** The id-to-record map a list stands for; the first record of an id wins. */
  ghost function ToMap<T>(xs: seq<Item<T>>): map<string, T> {
    if xs == [] then map[] else ToMap(xs[1..])[xs[0].id := xs[0].body]
  }

  /** No id appears twice. */
  ghost predicate OncePerId<T>(xs: seq<Item<T>>) {
    xs == [] || (xs[0].id !in ToMap(xs[1..]) && OncePerId(xs[1..]))
  }

  lemma {:induction false} FindIsLookup<T>(xs: seq<Item<T>>, id: string)
    ensures Find(xs, id) == if id in ToMap(xs) then Some(ToMap(xs)[id]) else None
  {
    if xs != [] {
      FindIsLookup(xs[1..], id);
    }
  }

  lemma {:induction false} AppendIsAdd<T>(xs: seq<Item<T>>, x: Item<T>)
    ensures ToMap(xs + [x]) == if x.id in ToMap(xs) then ToMap(xs) else ToMap(xs)[x.id := x.body]
    ensures OncePerId(xs) && x.id !in ToMap(xs) ==> OncePerId(xs + [x])
  {
    if xs == [] {
      assert [] + [x] == [x];
    } else {
      AppendIsAdd(xs[1..], x);
      assert (xs + [x])[1..] == xs[1..] + [x];
    }
  }

  lemma {:induction false} EraseIsRemove<T>(xs: seq<Item<T>>, id: string)
    ensures ToMap(Erase(xs, id)) == ToMap(xs) - {id}
    ensures OncePerId(xs) ==> OncePerId(Erase(xs, id))
  {
    if xs != [] {
      EraseIsRemove(xs[1..], id);
      var rest := Erase(xs[1..], id);
      if xs[0].id != id {
        assert ([xs[0]] + rest)[1..] == rest;
      }
    }
  }

  lemma {:induction false} ReplaceIsUpdate<T>(xs: seq<Item<T>>, x: Item<T>)
    ensures ToMap(Replace(xs, x)) == if x.id in ToMap(xs) then ToMap(xs)[x.id := x.body] else ToMap(xs)
    ensures OncePerId(xs) ==> OncePerId(Replace(xs, x))
  {
    if xs != [] {
      ReplaceIsUpdate(xs[1..], x);
      if xs[0].id == x.id {
        assert ([x] + xs[1..])[1..] == xs[1..];
      } else {
        assert ([xs[0]] + Replace(xs[1..], x))[1..] == Replace(xs[1..], x);
      }
    }
  }

  lemma {:induction false} WithoutDrops(ids: seq<string>, id: string)
    ensures forall x :: x in Without(ids, id) <==> x in ids && x != id
  {
    if ids != [] {
      WithoutDrops(ids[1..], id);
      assert ids == [ids[0]] + ids[1..];
    }
  }
}
