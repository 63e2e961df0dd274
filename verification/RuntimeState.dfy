/**
 The runtime delta beside the base configuration file (src/common/RuntimeState.cpp):
 which records were added and which ids were removed since the file was written, and
 how `applyRuntimeState` reapplies them on restart.  One kind of record at a time.
 */
module RuntimeState {
  import opened Keyed

  datatype Delta<T> = Delta(added: seq<Item<T>>, removed: seq<string>)

  function EraseAll<T>(xs: seq<Item<T>>, ids: seq<string>): seq<Item<T>> {
    if ids == [] then xs else Erase(EraseAll(xs, ids[..|ids| - 1]), ids[|ids| - 1])
  }

  function AddMissing<T>(xs: seq<Item<T>>, ys: seq<Item<T>>): seq<Item<T>> {
    if ys == [] then xs else
    var before := AddMissing(xs, ys[..|ys| - 1]);
    var y := ys[|ys| - 1];
    if Has(before, y.id) then before else before + [y]
  }

  /** The configuration a restart comes up with. */
  function Reloaded<T>(file: seq<Item<T>>, d: Delta<T>): seq<Item<T>> {
    AddMissing(EraseAll(file, d.removed), d.added)
  }

  /** `applyRuntimeState` for one kind of record. */
  method ApplyRuntimeState<T>(file: seq<Item<T>>, d: Delta<T>) returns (live: seq<Item<T>>)
    ensures live == Reloaded(file, d)
  {
    live := file;
    var i := 0;
    while i < |d.removed|
      invariant 0 <= i <= |d.removed| && live == EraseAll(file, d.removed[..i])
    {
      assert d.removed[..i + 1][..i] == d.removed[..i];
      live := Erase(live, d.removed[i]);
      i := i + 1;
    }
    assert d.removed[..i] == d.removed;
    ghost var kept := live;
    i := 0;
    while i < |d.added|
      invariant 0 <= i <= |d.added| && live == AddMissing(kept, d.added[..i])
    {
      assert d.added[..i + 1][..i] == d.added[..i];
      if !Has(live, d.added[i].id) {
        live := live + [d.added[i]];
      }
      i := i + 1;
    }
    assert d.added[..i] == d.added;
  }

  lemma {:induction false} EraseAllIs<T>(xs: seq<Item<T>>, ids: seq<string>)
    ensures ToMap(EraseAll(xs, ids)).Keys == set id | id in ToMap(xs) && id !in ids
    ensures forall id :: id in ToMap(EraseAll(xs, ids)) ==> ToMap(EraseAll(xs, ids))[id] == ToMap(xs)[id]
    ensures OncePerId(xs) ==> OncePerId(EraseAll(xs, ids))
  {
    if ids != [] {
      var k := |ids| - 1;
      EraseAllIs(xs, ids[..k]);
      EraseIsRemove(EraseAll(xs, ids[..k]), ids[k]);
      assert ids == ids[..k] + [ids[k]];
    }
  }

  /** Records already present win over added ones, and among these the first. */
  lemma {:induction false} AddMissingIs<T>(xs: seq<Item<T>>, ys: seq<Item<T>>)
    ensures ToMap(AddMissing(xs, ys)) == ToMap(ys) + ToMap(xs)
    ensures OncePerId(xs) ==> OncePerId(AddMissing(xs, ys))
  {
    if ys != [] {
      var k := |ys| - 1;
      AddMissingIs(xs, ys[..k]);
      assert ys == ys[..k] + [ys[k]];
      OneMoreMissing(xs, ys[..k], ys[k], AddMissing(xs, ys[..k]));
    }
  }

  lemma OneMoreMissing<T>(xs: seq<Item<T>>, ys: seq<Item<T>>, y: Item<T>, before: seq<Item<T>>)
    requires ToMap(before) == ToMap(ys) + ToMap(xs)
    ensures var after := if Has(before, y.id) then before else before + [y];
      ToMap(after) == ToMap(ys + [y]) + ToMap(xs) && (OncePerId(before) ==> OncePerId(after))
  {
    AppendIsAdd(ys, y);
    AppendIsAdd(before, y);
    FindIsLookup(before, y.id);
  }

  // ---------------------------------------------------------------- what the delta records

  /** The delta `d` records how `live` came about from the base file, except that
      changed content of a base record is not recorded. */
  ghost predicate Recorded<T>(base: map<string, T>, live: map<string, T>, d: Delta<T>) {
    var added := ToMap(d.added);
    && (forall id :: id in added ==> id in live && id !in d.removed && (id !in base ==> added[id] == live[id]))
    && (forall id :: id in live && id !in added ==> id in base && id !in d.removed)
    && (forall id :: id in base && id !in live ==> id in d.removed)
  }

  /** Starting from the file with an empty delta. */
  lemma FreshStart<T>(base: map<string, T>)
    ensures Recorded(base, base, Delta([], []))
  {
  }

  function RecordAdd<T>(d: Delta<T>, x: Item<T>): Delta<T> { Delta(d.added + [x], Without(d.removed, x.id)) }
  function RecordRemove<T>(d: Delta<T>, id: string): Delta<T> { Delta(Erase(d.added, id), d.removed + [id]) }
  function RecordUpdate<T>(d: Delta<T>, x: Item<T>): Delta<T> { d.(added := Replace(d.added, x)) }

  /** Adding appends; a live record of that id stays the one in force. */
  lemma AddRecorded<T>(base: map<string, T>, live: map<string, T>, d: Delta<T>, x: Item<T>)
    requires Recorded(base, live, d)
    ensures Recorded(base, if x.id in live then live else live[x.id := x.body], RecordAdd(d, x))
  {
    AppendIsAdd(d.added, x);
    WithoutDrops(d.removed, x.id);
  }

  lemma RemoveRecorded<T>(base: map<string, T>, live: map<string, T>, d: Delta<T>, id: string)
    requires Recorded(base, live, d) && id in live
    ensures Recorded(base, live - {id}, RecordRemove(d, id))
  {
    EraseIsRemove(d.added, id);
    var removed := d.removed + [id];
    assert removed[|d.removed|] == id;
    forall x ensures x in removed <==> x in d.removed || x == id {
    }
  }

  lemma UpdateRecorded<T>(base: map<string, T>, live: map<string, T>, d: Delta<T>, x: Item<T>)
    requires Recorded(base, live, d) && x.id in live
    ensures Recorded(base, live[x.id := x.body], RecordUpdate(d, x))
  {
    ReplaceIsUpdate(d.added, x);
  }

  /** What a restart gives: exactly the live ids, each once; base ids fall back to the
      content of the file, all others keep their live content. */
  lemma RestartMeaning<T>(file: seq<Item<T>>, live: map<string, T>, d: Delta<T>)
    requires OncePerId(file) && Recorded(ToMap(file), live, d)
    ensures OncePerId(Reloaded(file, d))
    ensures ToMap(Reloaded(file, d)).Keys == live.Keys
    ensures forall id :: id in live ==>
      ToMap(Reloaded(file, d))[id] == if id in ToMap(file) then ToMap(file)[id] else live[id]
  {
    EraseAllIs(file, d.removed);
    AddMissingIs(EraseAll(file, d.removed), d.added);
  }

  /** The delta stays a faithful record across the restart, so histories may span restarts. */
  lemma RestartKeepsRecord<T>(file: seq<Item<T>>, live: map<string, T>, d: Delta<T>)
    requires OncePerId(file) && Recorded(ToMap(file), live, d)
    ensures Recorded(ToMap(file), ToMap(Reloaded(file, d)), d)
  {
    RestartMeaning(file, live, d);
    assert ToMap(Reloaded(file, d)).Keys == live.Keys;
  }

  /** A restart reproduces the live configuration exactly when no base record was changed. */
  lemma RestartExactIff<T>(file: seq<Item<T>>, live: map<string, T>, d: Delta<T>)
    requires OncePerId(file) && Recorded(ToMap(file), live, d)
    ensures ToMap(Reloaded(file, d)) == live <==>
            forall id :: id in live && id in ToMap(file) ==> live[id] == ToMap(file)[id]
  {
    RestartMeaning(file, live, d);
  }
}
