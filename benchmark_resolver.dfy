/** The reference-preservation table behind `$id`/`$ref`: in writing mode it
    hands out numeric ids to objects by identity, in reading mode it records
    and looks up the objects registered under string ids. Object identity is
    Dafny's reference equality on `object`, which is what the source's
    reference-equality comparer provides. */
module BenchmarkResolver {

  /** The largest value of the C# `uint` that holds the counter and the ids. */
  const MAX_REFERENCE_ID: nat := 0xFFFF_FFFF

  /** The exceptions the resolver can raise. Both throws in the code are a
      bare `Exception`, each next to a commented-out call that names the
      intended error. Resolution throws in the case that call names, so its
      fault carries that name (`MetadataReferenceNotFound`). Registration
      throws in the opposite case to the one its call names, so the throw as
      written is `AddException` and the intended one is
      `MetadataDuplicateIdFound`. */
  datatype Fault =
      /** The dictionary of the other mode is null. */
    | NullReference
      /** The bare exception that the registration of an `$id` throws as written. */
    | AddException
      /** The duplicate-`$id` error that registration is meant to raise. */
    | MetadataDuplicateIdFound
      /** The bare exception thrown for a `$ref` whose id was never registered. */
    | MetadataReferenceNotFound

  datatype Result<T> = Ok(value: T) | Err(fault: Fault)

  datatype Outcome = Pass | Fail(fault: Fault)

  predicate Distinct<T(==)>(s: seq<T>) {
    forall i, j :: 0 <= i < j < |s| ==> s[i] != s[j]
  }

  // ---------------------------------------------------------------------
  // TryAdd: insert a pair unless the key is present

  datatype Added<K, V> = Added(added: bool, dictionary: map<K, V>)

  /** Both conditional-compilation variants of the source (a `ContainsKey`
      test followed by an indexer store, or `Dictionary.TryAdd`) have this
      effect. */
  function TryAdd<K, V>(dictionary: map<K, V>, key: K, value: V): (r: Added<K, V>)
    ensures r.added <==> key !in dictionary
    ensures r.dictionary.Keys == dictionary.Keys + {key}
    ensures r.added ==> r.dictionary[key] == value
    ensures forall k :: k in dictionary ==> r.dictionary[k] == dictionary[k]
  {
    if key !in dictionary then Added(true, dictionary[key := value]) else Added(false, dictionary)
  }

  // ---------------------------------------------------------------------
  // Writing mode: object -> id

  /** The writing-mode state: the counter and the object-to-id dictionary. */
  datatype WriteTable = WriteTable(count: nat, ids: map<object, nat>)

  /** What one lookup reports: whether the object had an id already, and its id. */
  datatype IdLookup = IdLookup(alreadySeen: bool, referenceId: nat)

  datatype SerializeStep = SerializeStep(table: WriteTable, lookup: IdLookup)

  /** One get-or-add lookup: a known object reports its id, an unknown one
      receives the next value of the counter. */
  function OnSerialize(t: WriteTable, value: object): (r: SerializeStep)
    ensures r.lookup.alreadySeen <==> value in t.ids
    ensures value in r.table.ids && r.table.ids[value] == r.lookup.referenceId
    ensures t.ids.Keys <= r.table.ids.Keys
    ensures forall o :: o in t.ids ==> r.table.ids[o] == t.ids[o]
  {
    if value in t.ids then
      SerializeStep(t, IdLookup(true, t.ids[value]))
    else
      var id := t.count + 1;
      SerializeStep(WriteTable(id, t.ids[value := id]), IdLookup(false, id))
  }

  /** The ids handed out to the objects of `order`, in that order: the
      k-th object has id k + 1. */
  function IdsOf(order: seq<object>): map<object, nat>
    decreases |order|
  {
    if order == [] then map[]
    else IdsOf(order[..|order| - 1])[order[|order| - 1] := |order|]
  }

  /** The table after the objects of `order` were each seen for the first time. */
  function TableOf(order: seq<object>): WriteTable {
    WriteTable(|order|, IdsOf(order))
  }

  /** `acc` followed by the objects of `objs` not seen before, in first-seen order. */
  function FirstSeen(acc: seq<object>, objs: seq<object>): seq<object>
    decreases |objs|
  {
    if objs == [] then acc
    else FirstSeen(if objs[0] in acc then acc else acc + [objs[0]], objs[1..])
  }

  /** The table after a lookup of each object of `objs`, in order. */
  function ReplaySerialize(t: WriteTable, objs: seq<object>): WriteTable
    decreases |objs|
  {
    if objs == [] then t else ReplaySerialize(OnSerialize(t, objs[0]).table, objs[1..])
  }

  /** The ids that the lookups of `objs`, in order, return. */
  function ReplayIds(t: WriteTable, objs: seq<object>): (ids: seq<nat>)
    ensures |ids| == |objs|
    decreases |objs|
  {
    if objs == [] then []
    else
      var step := OnSerialize(t, objs[0]);
      [step.lookup.referenceId] + ReplayIds(step.table, objs[1..])
  }

  lemma {:induction false} IdsOfKeys(order: seq<object>)
    ensures forall o: object :: o in IdsOf(order) ==> o in order
    ensures forall o: object :: o in order ==> o in IdsOf(order)
    decreases |order|
  {
    if order != [] {
      var init := order[..|order| - 1];
      IdsOfKeys(init);
      assert order == init + [order[|order| - 1]];
    }
  }

  /** The k-th object of a repetition-free order has id k + 1. */
  lemma {:induction false} IdsOfAt(order: seq<object>, k: nat)
    requires Distinct(order) && k < |order|
    ensures order[k] in IdsOf(order) && IdsOf(order)[order[k]] == k + 1
    decreases |order|
  {
    IdsOfKeys(order);
    if k < |order| - 1 {
      var init := order[..|order| - 1];
      IdsOfAt(init, k);
    }
  }

  /** Ids are dense and injective: exactly 1..|order| are used, one per object. */
  lemma IdsOfDenseAndInjective(order: seq<object>)
    requires Distinct(order)
    ensures forall id :: id in IdsOf(order).Values <==> 1 <= id <= |order|
    ensures forall a: object, b: object :: a in IdsOf(order) && b in IdsOf(order) && a != b ==> IdsOf(order)[a] != IdsOf(order)[b]
  {
    var m := IdsOf(order);
    IdsOfKeys(order);
    forall id | id in m.Values ensures 1 <= id <= |order| {
      var o :| o in m && m[o] == id;
      var k :| 0 <= k < |order| && order[k] == o;
      IdsOfAt(order, k);
    }
    forall id | 1 <= id <= |order| ensures id in m.Values {
      IdsOfAt(order, id - 1);
    }
    forall a: object, b: object | a in m && b in m && a != b ensures m[a] != m[b] {
      var i :| 0 <= i < |order| && order[i] == a;
      var j :| 0 <= j < |order| && order[j] == b;
      IdsOfAt(order, i);
      IdsOfAt(order, j);
    }
  }

  /** A lookup keeps a table of first-seen ids one: an unseen object is
      appended to the order and receives id |order| + 1. */
  lemma OnSerializeTableOf(order: seq<object>, value: object)
    requires Distinct(order)
    ensures value in IdsOf(order) <==> value in order
    ensures var r := OnSerialize(TableOf(order), value);
      if value in order then r == SerializeStep(TableOf(order), IdLookup(true, IdsOf(order)[value]))
      else r == SerializeStep(TableOf(order + [value]), IdLookup(false, |order| + 1))
  {
  }

  /** A second lookup of the same object changes nothing and reports the same id. */
  lemma OnSerializeIdempotent(t: WriteTable, value: object)
    ensures var r := OnSerialize(t, value);
      OnSerialize(r.table, value) == SerializeStep(r.table, IdLookup(true, r.lookup.referenceId))
  {
  }

  lemma {:induction false} FirstSeenExtends(acc: seq<object>, objs: seq<object>)
    requires Distinct(acc)
    ensures Distinct(FirstSeen(acc, objs))
    ensures |acc| <= |FirstSeen(acc, objs)| && FirstSeen(acc, objs)[..|acc|] == acc
    ensures forall o :: o in FirstSeen(acc, objs) <==> o in acc || o in objs
    decreases |objs|
  {
    if objs != [] {
      var next := if objs[0] in acc then acc else acc + [objs[0]];
      FirstSeenExtends(next, objs[1..]);
      assert objs == [objs[0]] + objs[1..];
      assert FirstSeen(acc, objs)[..|next|][..|acc|] == FirstSeen(acc, objs)[..|acc|];
    }
  }

  /** Any run of lookups from a first-seen table ends in the first-seen table
      of the objects it met. */
  lemma {:induction false} ReplayIsFirstSeen(acc: seq<object>, objs: seq<object>)
    requires Distinct(acc)
    ensures ReplaySerialize(TableOf(acc), objs) == TableOf(FirstSeen(acc, objs))
    decreases |objs|
  {
    if objs != [] {
      OnSerializeTableOf(acc, objs[0]);
      var next := if objs[0] in acc then acc else acc + [objs[0]];
      ReplayIsFirstSeen(next, objs[1..]);
    }
  }

  /** Every lookup in a run returns the id the object holds at the end. */
  lemma {:induction false} ReplayIdsAreFinal(acc: seq<object>, objs: seq<object>)
    requires Distinct(acc)
    ensures |ReplayIds(TableOf(acc), objs)| == |objs|
    ensures forall k :: 0 <= k < |objs| ==>
      objs[k] in IdsOf(FirstSeen(acc, objs)) && ReplayIds(TableOf(acc), objs)[k] == IdsOf(FirstSeen(acc, objs))[objs[k]]
    decreases |objs|
  {
    if objs != [] {
      OnSerializeTableOf(acc, objs[0]);
      var next := if objs[0] in acc then acc else acc + [objs[0]];
      ReplayIdsAreFinal(next, objs[1..]);
      FirstSeenExtends(next, objs[1..]);
      var final := FirstSeen(acc, objs);
      var ids := ReplayIds(TableOf(acc), objs);
      IdsOfKeys(final);
      forall k | 0 <= k < |objs| ensures objs[k] in IdsOf(final) && ids[k] == IdsOf(final)[objs[k]] {
        if k == 0 {
          var i :| 0 <= i < |next| && next[i] == objs[0];
          IdsOfAt(next, i);
          IdsOfAt(final, i);
        } else {
          assert objs[k] == objs[1..][k - 1];
        }
      }
    }
  }

  /** The id sequence for distinct objects starting from an empty table is
      exactly 1, 2, ..., N, and the final table holds exactly those N ids. */
  lemma DistinctObjectsGetFirstIds(objs: seq<object>)
    requires Distinct(objs)
    ensures ReplaySerialize(WriteTable(0, map[]), objs) == TableOf(objs)
    ensures forall k :: 0 <= k < |objs| ==> ReplayIds(WriteTable(0, map[]), objs)[k] == k + 1
  {
    FirstSeenOfDistinct([], objs);
    assert [] + objs == objs;
    assert TableOf([]) == WriteTable(0, map[]);
    ReplayIsFirstSeen([], objs);
    ReplayIdsAreFinal([], objs);
    forall k | 0 <= k < |objs| ensures ReplayIds(WriteTable(0, map[]), objs)[k] == k + 1 {
      IdsOfAt(objs, k);
    }
  }

  lemma {:induction false} FirstSeenOfDistinct(acc: seq<object>, objs: seq<object>)
    requires Distinct(acc + objs)
    ensures FirstSeen(acc, objs) == acc + objs
    decreases |objs|
  {
    if objs != [] {
      assert objs[0] !in acc by {
        forall i | 0 <= i < |acc| ensures acc[i] != objs[0] {
          assert (acc + objs)[i] == acc[i] && (acc + objs)[|acc|] == objs[0];
        }
      }
      assert acc + objs == (acc + [objs[0]]) + objs[1..];
      FirstSeenOfDistinct(acc + [objs[0]], objs[1..]);
    }
  }

  /** Repeating the same object N > 0 times from an empty table, as the
      benchmark loop does, yields id 1 each time and a counter of 1. */
  lemma SameObjectRepeated(value: object, n: nat)
    requires n > 0
    ensures ReplaySerialize(WriteTable(0, map[]), seq(n, _ => value)) == WriteTable(1, map[value := 1])
    ensures ReplayIds(WriteTable(0, map[]), seq(n, _ => value)) == seq(n, _ => 1)
  {
    var objs := seq(n, _ => value);
    assert objs == [value] + seq(n - 1, _ => value);
    var start := WriteTable(1, map[value := 1]);
    RepeatSeen(start, value, n - 1);
  }

  lemma {:induction false} RepeatSeen(t: WriteTable, value: object, n: nat)
    requires value in t.ids
    ensures ReplaySerialize(t, seq(n, _ => value)) == t
    ensures ReplayIds(t, seq(n, _ => value)) == seq(n, _ => t.ids[value])
    decreases n
  {
    if n > 0 {
      assert seq(n, _ => value)[1..] == seq(n - 1, _ => value);
      RepeatSeen(t, value, n - 1);
      assert seq(n, _ => t.ids[value]) == [t.ids[value]] + seq(n - 1, _ => t.ids[value]);
    }
  }

  // ---------------------------------------------------------------------
  // Reading mode: string id -> object

  datatype Registered = Registered(outcome: Outcome, dictionary: map<string, object>)

  /** Registration of an `$id` as written: the pair is inserted by TryAdd,
      and the exception is thrown exactly when that insertion succeeded. */
  function AddAsWritten(m: map<string, object>, referenceId: string, value: object): (r: Registered)
    ensures r.outcome.Fail? <==> referenceId !in m
    ensures r.outcome.Fail? ==> r.outcome.fault == AddException && r.dictionary == m[referenceId := value]
    ensures r.outcome.Pass? ==> r.dictionary == m
  {
    var t := TryAdd(m, referenceId, value);
    if t.added then Registered(Fail(AddException), t.dictionary) else Registered(Pass, t.dictionary)
  }

  /** Registration of an `$id` as intended: a fresh id is inserted, a
      duplicate id is refused and leaves the dictionary unchanged. */
  function AddIntended(m: map<string, object>, referenceId: string, value: object): (r: Registered)
    ensures r.outcome.Fail? <==> referenceId in m
    ensures r.outcome.Fail? ==> r.outcome.fault == MetadataDuplicateIdFound && r.dictionary == m
    ensures r.outcome.Pass? ==> r.dictionary == m[referenceId := value]
  {
    var t := TryAdd(m, referenceId, value);
    if t.added then Registered(Pass, t.dictionary) else Registered(Fail(MetadataDuplicateIdFound), t.dictionary)
  }

  /** Resolution of a `$ref`: the registered object, or an error for an
      unknown id. */
  function Resolve(m: map<string, object>, referenceId: string): (r: Result<object>)
    ensures r.Ok? <==> referenceId in m
    ensures r.Ok? ==> r.value == m[referenceId]
    ensures r.Err? ==> r.fault == MetadataReferenceNotFound
  {
    if referenceId in m then Ok(m[referenceId]) else Err(MetadataReferenceNotFound)
  }

  /** As written, registering a fresh id throws, although the id is then
      in the dictionary; registering a duplicate id returns normally and a
      later `$ref` resolves to the first object, not the new one. */
  lemma AddAsWrittenIsInverted(first: object, second: object)
    requires first != second
    ensures var r := AddAsWritten(map[], "1", first);
      r.outcome == Fail(AddException) && Resolve(r.dictionary, "1") == Ok(first)
    ensures var r := AddAsWritten(map["1" := first], "1", second);
      r.outcome == Pass && Resolve(r.dictionary, "1") != Ok(second)
  {
  }

  /** As intended, a registered id resolves to its object and every other
      id resolves as before. */
  lemma AddIntendedThenResolve(m: map<string, object>, referenceId: string, value: object, other: string)
    requires referenceId !in m && other != referenceId
    ensures AddIntended(m, referenceId, value).outcome == Pass
    ensures Resolve(AddIntended(m, referenceId, value).dictionary, referenceId) == Ok(value)
    ensures Resolve(AddIntended(m, referenceId, value).dictionary, other) == Resolve(m, other)
  {
  }

  /** The document-order registration of a sequence of `$id`s, stopping at
      the first failure. */
  function RegisterAll(m: map<string, object>, entries: seq<(string, object)>): Registered
    decreases |entries|
  {
    if entries == [] then Registered(Pass, m)
    else
      var step := AddIntended(m, entries[0].0, entries[0].1);
      if step.outcome.Fail? then step else RegisterAll(step.dictionary, entries[1..])
  }

  predicate FreshIds(m: map<string, object>, entries: seq<(string, object)>) {
    (forall k :: 0 <= k < |entries| ==> entries[k].0 !in m) &&
    (forall i, j :: 0 <= i < j < |entries| ==> entries[i].0 != entries[j].0)
  }

  /** Registering distinct fresh ids succeeds, and each of them then
      resolves to the object registered under it. */
  lemma {:induction false} RegisterAllThenResolve(m: map<string, object>, entries: seq<(string, object)>)
    requires FreshIds(m, entries)
    ensures RegisterAll(m, entries).outcome == Pass
    ensures forall k :: 0 <= k < |entries| ==>
      Resolve(RegisterAll(m, entries).dictionary, entries[k].0) == Ok(entries[k].1)
    ensures forall id :: id in m ==> Resolve(RegisterAll(m, entries).dictionary, id) == Ok(m[id])
    decreases |entries|
  {
    if entries != [] {
      var next := m[entries[0].0 := entries[0].1];
      assert FreshIds(next, entries[1..]) by {
        forall k | 0 <= k < |entries[1..]| ensures entries[1..][k].0 !in next {
          assert entries[1..][k] == entries[k + 1];
        }
        forall i, j | 0 <= i < j < |entries[1..]| ensures entries[1..][i].0 != entries[1..][j].0 {
          assert entries[1..][i] == entries[i + 1] && entries[1..][j] == entries[j + 1];
        }
      }
      RegisterAllThenResolve(next, entries[1..]);
      forall k | 0 <= k < |entries| ensures Resolve(RegisterAll(m, entries).dictionary, entries[k].0) == Ok(entries[k].1) {
        if k > 0 {
          assert entries[1..][k - 1] == entries[k];
        }
      }
    }
  }

  /** A repeated id in the registration sequence is refused as a duplicate. */
  lemma {:induction false} RegisterAllRejectsRepeat(m: map<string, object>, entries: seq<(string, object)>, i: nat, j: nat)
    requires i < j < |entries| && entries[i].0 == entries[j].0
    ensures RegisterAll(m, entries).outcome == Fail(MetadataDuplicateIdFound)
    decreases |entries|
  {
    var step := AddIntended(m, entries[0].0, entries[0].1);
    if step.outcome.Pass? {
      if i == 0 {
        RegisterAllRejectsPresent(step.dictionary, entries[1..], j - 1);
      } else {
        RegisterAllRejectsRepeat(step.dictionary, entries[1..], i - 1, j - 1);
      }
    }
  }

  /** An id already in the dictionary is refused when it comes up again. */
  lemma {:induction false} RegisterAllRejectsPresent(m: map<string, object>, entries: seq<(string, object)>, j: nat)
    requires j < |entries| && entries[j].0 in m
    ensures RegisterAll(m, entries).outcome == Fail(MetadataDuplicateIdFound)
    decreases |entries|
  {
    var step := AddIntended(m, entries[0].0, entries[0].1);
    if step.outcome.Pass? {
      RegisterAllRejectsPresent(step.dictionary, entries[1..], j - 1);
    }
  }

  // ---------------------------------------------------------------------
  // The resolver object

  class DefaultReferenceResolver {
    var referenceCount: nat
    var objToId: map<object, nat>
    var idToObj: map<string, object>
    /** Fixed at construction; the dictionary of the other mode is null. */
    const writing: bool
    /** The objects that received ids, in the order they were first seen. */
    ghost var seen: seq<object>

    /** Only the dictionary of the resolver's mode is ever populated; in
        writing mode the ids are those of `seen`, in first-seen order. */
    ghost predicate Valid()
      reads this
    {
      if writing then
        Distinct(seen) && Table() == TableOf(seen) && idToObj == map[] && referenceCount <= MAX_REFERENCE_ID
      else referenceCount == 0 && objToId == map[] && seen == []
    }

    function Table(): WriteTable
      reads this
    {
      WriteTable(referenceCount, objToId)
    }

    constructor (writing: bool)
      ensures Valid() && this.writing == writing
      ensures referenceCount == 0 && objToId == map[] && idToObj == map[] && seen == []
    {
      this.writing := writing;
      referenceCount := 0;
      objToId := map[];
      idToObj := map[];
      seen := [];
    }

    /** Returns whether `value` already had an id, and its id. */
    method TryGetOrAddReferenceOnSerialize(value: object) returns (r: Result<IdLookup>)
      requires Valid()
      requires value !in objToId ==> referenceCount < MAX_REFERENCE_ID
      modifies this
      ensures Valid()
      ensures !writing ==> r == Err(NullReference) && unchanged(this)
      ensures writing ==>
        var step := OnSerialize(old(Table()), value);
        r == Ok(step.lookup) && Table() == step.table && idToObj == old(idToObj)
      ensures writing ==> seen == if value in old(seen) then old(seen) else old(seen) + [value]
      ensures r.Ok? ==> 1 <= r.value.referenceId <= referenceCount <= MAX_REFERENCE_ID
    {
      if !writing {
        return Err(NullReference);
      }
      OnSerializeTableOf(seen, value);
      IdsOfKeys(seen);
      if value in objToId {
        IdsOfDenseAndInjective(seen);
        assert objToId[value] in objToId.Values;
        return Ok(IdLookup(true, objToId[value]));
      }
      referenceCount := referenceCount + 1;
      var referenceId := referenceCount;
      objToId := objToId[value := referenceId];
      seen := seen + [value];
      r := Ok(IdLookup(false, referenceId));
    }

    /** Registers `value` under `referenceId`, as written. */
    method AddReferenceOnDeserialize(referenceId: string, value: object) returns (o: Outcome)
      requires Valid()
      modifies this`idToObj
      ensures Valid()
      ensures writing ==> o == Fail(NullReference) && idToObj == old(idToObj)
      ensures !writing ==> Registered(o, idToObj) == AddAsWritten(old(idToObj), referenceId, value)
    {
      if writing {
        return Fail(NullReference);
      }
      var t := TryAdd(idToObj, referenceId, value);
      idToObj := t.dictionary;
      if t.added {
        return Fail(AddException);
      }
      o := Pass;
    }

    /** Registers `value` under `referenceId`, refusing a duplicate id. */
    method AddReferenceOnDeserializeChecked(referenceId: string, value: object) returns (o: Outcome)
      requires Valid()
      modifies this`idToObj
      ensures Valid()
      ensures writing ==> o == Fail(NullReference) && idToObj == old(idToObj)
      ensures !writing ==> Registered(o, idToObj) == AddIntended(old(idToObj), referenceId, value)
    {
      if writing {
        return Fail(NullReference);
      }
      var t := TryAdd(idToObj, referenceId, value);
      idToObj := t.dictionary;
      if !t.added {
        return Fail(MetadataDuplicateIdFound);
      }
      o := Pass;
    }

    /** Returns the object registered under `referenceId`. */
    method ResolveReferenceOnDeserialize(referenceId: string) returns (r: Result<object>)
      requires Valid()
      ensures writing ==> r == Err(NullReference)
      ensures !writing ==> (r.Ok? <==> referenceId in idToObj)
      ensures !writing ==> r == Resolve(idToObj, referenceId)
    {
      if writing {
        return Err(NullReference);
      }
      if referenceId !in idToObj {
        return Err(MetadataReferenceNotFound);
      }
      r := Ok(idToObj[referenceId]);
    }
  }

  /** The benchmark body: one lookup per element of `objects`, each of them
      passing the array `objects` itself. */
  method DefaultReferenceResolverBenchmark(drr: DefaultReferenceResolver, objects: array<object>)
    requires drr.Valid() && drr.writing
    requires objects !in drr.objToId ==> drr.referenceCount < MAX_REFERENCE_ID
    modifies drr
    ensures drr.Valid() && drr.idToObj == old(drr.idToObj)
    ensures objects.Length == 0 ==> drr.Table() == old(drr.Table())
    ensures objects.Length > 0 ==> drr.Table() == OnSerialize(old(drr.Table()), objects).table
    ensures old(drr.referenceCount) == 0 && objects.Length > 0 ==>
      drr.referenceCount == 1 && drr.objToId == map[objects := 1]
  {
    ghost var start := drr.Table();
    for i := 0 to objects.Length
      invariant drr.Valid() && drr.writing && drr.idToObj == old(drr.idToObj)
      invariant i == 0 ==> drr.Table() == start
      invariant i > 0 ==> drr.Table() == OnSerialize(start, objects).table
      invariant drr.referenceCount <= start.count + 1
    {
      OnSerializeIdempotent(start, objects);
      var r := drr.TryGetOrAddReferenceOnSerialize(objects);
    }
    if old(drr.referenceCount) == 0 {
      IdsOfKeys(drr.seen);
      assert start.ids == map[];
    }
  }
}
