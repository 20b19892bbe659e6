/** The database storage engine: one table of rows per mapped class, queried by
    `all`, `get` and `count`, changed by `new` and `delete`, committed by `save`. */
module DbStorage {
  import opened Models

  /** The session's working set: the rows of each mapped class, in query order. */
  type Tables = map<ClassName, seq<Obj>>

  function Table(rows: Tables, c: ClassName): seq<Obj>
  {
    if c in rows then rows[c] else []
  }

  ghost predicate UniqueIds(t: seq<Obj>)
  {
    forall i, j :: 0 <= i < j < |t| ==> t[i].id != t[j].id
  }

  ghost predicate KindsAre(t: seq<Obj>, c: ClassName)
  {
    forall o :: o in t ==> o.kind == c
  }

  /** Every table holds only objects of its class, with primary keys unique. */
  ghost predicate WellFormed(rows: Tables)
  {
    forall c :: KindsAre(Table(rows, c), c) && UniqueIds(Table(rows, c))
  }

  ghost predicate HasId(t: seq<Obj>, id: string)
  {
    exists i :: 0 <= i < |t| && t[i].id == id
  }

  /** The position of the first row with the given id, or |t| if there is none. */
  function FirstIndex(t: seq<Obj>, id: string): (r: nat)
    ensures r <= |t|
    ensures forall j :: 0 <= j < r ==> t[j].id != id
    ensures r < |t| ==> t[r].id == id
  {
    if t == [] then 0
    else if t[0].id == id then 0
    else 1 + FirstIndex(t[1..], id)
  }

  /** The object `get(name, id)` answers with: the first row of the named class
      whose id matches; None for an unknown class name or a missing id. */
  function Lookup(rows: Tables, name: string, id: string): Option<Obj>
  {
    match Resolve(name)
    case None => None
    case Some(c) =>
      var t := Table(rows, c);
      var i := FirstIndex(t, id);
      if i < |t| then Some(t[i]) else None
  }

  /** `session.add(obj)`: the session identifies objects by class and primary
      key, so adding an object whose id is already stored replaces that row
      (the same instance, possibly modified); otherwise it is appended. */
  function Upsert(t: seq<Obj>, o: Obj): seq<Obj>
  {
    var i := FirstIndex(t, o.id);
    if i < |t| then t[i := o] else t + [o]
  }

  /** The table without the rows carrying the given id. */
  function RemoveId(t: seq<Obj>, id: string): seq<Obj>
  {
    if t == [] then []
    else (if t[0].id == id then [] else [t[0]]) + RemoveId(t[1..], id)
  }

  // ---------------------------------------------------------------------------
  // The dictionary `all` builds

  /** The (key, object) pairs of one query, in the order the loop inserts them. */
  function TableEntries(t: seq<Obj>): seq<(string, Obj)>
  {
    seq(|t|, i requires 0 <= i < |t| => (Key(t[i].kind, t[i].id), t[i]))
  }

  /** The pairs of the queries over the classes `cs`, one query after another. */
  function Entries(rows: Tables, cs: seq<ClassName>): seq<(string, Obj)>
  {
    if cs == [] then [] else Entries(rows, cs[..|cs| - 1]) + TableEntries(Table(rows, cs[|cs| - 1]))
  }

  /** The dictionary built by `dic[key] = elem` over the pairs, later pairs
      overwriting earlier ones. */
  function ToMap(es: seq<(string, Obj)>): map<string, Obj>
  {
    if es == [] then map[] else ToMap(es[..|es| - 1])[es[|es| - 1].0 := es[|es| - 1].1]
  }

  ghost predicate DistinctKeys(es: seq<(string, Obj)>)
  {
    forall i, j :: 0 <= i < j < |es| ==> es[i].0 != es[j].0
  }

  function SumSizes(rows: Tables, cs: seq<ClassName>): nat
  {
    if cs == [] then 0 else SumSizes(rows, cs[..|cs| - 1]) + |Table(rows, cs[|cs| - 1])|
  }

  /** Which classes `all(cls)` queries: a falsy argument (None or "") means
      the fixed list of six, a class object means that class, and a class name
      is evaluated, raising NameError when no mapped class has that name. */
  datatype ClassArg = NoClass | ByClass(c: ClassName) | ByName(name: string)

  function Queried(arg: ClassArg): Result<seq<ClassName>>
  {
    match arg
    case NoClass => Ok(AllClasses)
    case ByClass(c) => Ok([c])
    case ByName(name) =>
      if name == [] then Ok(AllClasses)
      else match Resolve(name)
        case None => Err("name '" + name + "' is not defined")
        case Some(c) => Ok([c])
  }

  /** `count()` without a class walks the names of the `models` namespace,
      skipping "BaseModel"; a name with no mapped class raises. */
  function CountOfNames(rows: Tables, names: seq<string>): Result<nat>
  {
    if names == [] then Ok(0) else CountStep(rows, CountOfNames(rows, names[..|names| - 1]), names[|names| - 1])
  }

  /** One name of that walk: "BaseModel" is skipped, a mapped class adds its
      row count, and any other name raises; an error raised before stands. */
  function CountStep(rows: Tables, before: Result<nat>, k: string): Result<nat>
  {
    if before.Err? || k == "BaseModel" then before
    else match Resolve(k)
      case None => Err("no mapped class " + k)
      case Some(c) => Ok(before.value + |Table(rows, c)|)
  }

  function Names(cs: seq<ClassName>): seq<string>
  {
    seq(|cs|, i requires 0 <= i < |cs| => Name(cs[i]))
  }

  // ---------------------------------------------------------------------------
  // The engine

  class DBStorage {
    /** The session: rows visible to queries, including those added or
        deleted since the last commit (the session flushes before a query). */
    var rows: Tables
    /** What the last commit made durable. */
    var committed: Tables

    ghost predicate Valid()
      reads this
    {
      WellFormed(rows)
    }

    /** The engine after `reload`: the session starts from the stored rows,
        all of them committed. */
    constructor (rows0: Tables)
      requires WellFormed(rows0)
      ensures Valid() && rows == rows0 && committed == rows0
    {
      rows := rows0;
      committed := rows0;
    }

    /** `all(cls)`: the dictionary from composite key to object over the
        queried classes; an unknown class name raises. */
    method All(arg: ClassArg) returns (r: Result<map<string, Obj>>)
      ensures Queried(arg).Err? ==> r.Err?
      ensures Queried(arg).Ok? ==> r == Ok(ToMap(Entries(rows, Queried(arg).value)))
    {
      var q := Queried(arg);
      if q.Err? {
        return Err(q.msg);
      }
      var dic: map<string, Obj>;
      if arg.ByClass? || (arg.ByName? && arg.name != []) {
        assert q.value == [q.value[0]];
        dic := AllOf(q.value[0]);
      } else {
        dic := AllOfEvery();
      }
      r := Ok(dic);
    }

    /** The branch of `all` given a class: one query. */
    method AllOf(c: ClassName) returns (dic: map<string, Obj>)
      ensures dic == ToMap(Entries(rows, [c]))
    {
      var query := Table(rows, c);
      dic := AddQuery(map[], [], query);
      assert [] + TableEntries(query) == TableEntries(query);
      assert Entries(rows, [c]) == TableEntries(query) by {
        assert [c][..0] == [];
      }
    }

    /** The branch of `all` without a class: the queries of the six classes
        in their fixed order, into one dictionary. */
    method AllOfEvery() returns (dic: map<string, Obj>)
      ensures dic == ToMap(Entries(rows, AllClasses))
    {
      dic := map[];
      var lista := AllClasses;
      var i := 0;
      assert lista[..0] == [];
      while i < |lista|
        invariant 0 <= i <= |lista|
        invariant dic == ToMap(Entries(rows, lista[..i]))
      {
        var clase := lista[i];
        dic := AddQuery(dic, Entries(rows, lista[..i]), Table(rows, clase));
        EntriesPrefixStep(rows, lista, i);
        i := i + 1;
      }
      assert lista[..i] == lista;
    }

    /** `new(obj)`: the object is in the session, visible to the next query. */
    method New(obj: Obj)
      requires Valid()
      modifies this
      ensures Valid()
      ensures rows == old(rows)[obj.kind := Upsert(Table(old(rows), obj.kind), obj)]
      ensures committed == old(committed)
    {
      UpsertWellFormed(rows, obj);
      rows := rows[obj.kind := Upsert(Table(rows, obj.kind), obj)];
    }

    /** `save()`: commits the session; what queries see does not change. */
    method Save()
      modifies this
      ensures rows == old(rows) && committed == rows
    {
      committed := rows;
    }

    /** `delete(obj)`: a falsy argument (None) changes nothing; an object the
        session holds is removed; the session refuses an object it does not
        hold (ok is false and nothing changes). */
    method Delete(obj: Option<Obj>) returns (ok: bool)
      requires Valid()
      modifies this
      ensures Valid() && committed == old(committed)
      ensures obj.None? ==> ok && rows == old(rows)
      ensures obj.Some? ==> ok == HasId(Table(old(rows), obj.value.kind), obj.value.id)
      ensures obj.Some? && ok ==>
        rows == old(rows)[obj.value.kind := RemoveId(Table(old(rows), obj.value.kind), obj.value.id)]
      ensures !ok ==> rows == old(rows)
    {
      if obj.Some? {
        var o := obj.value;
        var t := Table(rows, o.kind);
        ok := FirstIndex(t, o.id) < |t|;
        if ok {
          RemoveWellFormed(rows, o.kind, o.id);
          rows := rows[o.kind := RemoveId(t, o.id)];
        }
      } else {
        ok := true;
      }
    }

    /** `get(cls, id)`: scans the class's rows and stops at the first whose id
        matches; an unknown class name, like a missing id, gives None, and
        nothing is raised. */
    method Get(name: string, id: string) returns (r: Option<Obj>)
      ensures r == Lookup(rows, name, id)
      ensures Resolve(name).None? ==> r.None?
      ensures Resolve(name).Some? ==> (r.None? <==> !HasId(Table(rows, Resolve(name).value), id))
      ensures r.Some? ==> r.value.id == id && r.value in Table(rows, Resolve(name).value)
    {
      r := None;
      var cls := Resolve(name);
      if cls.Some? {
        var objs := Table(rows, cls.value);
        var i := 0;
        while i < |objs|
          invariant 0 <= i <= |objs|
          invariant forall j :: 0 <= j < i ==> objs[j].id != id
          invariant r == None
        {
          if objs[i].id == id {
            r := Some(objs[i]);
            break;
          }
          i := i + 1;
        }
      }
    }

    /** `count(cls)`: the number of rows of the named class, which is the size
        of `all(cls)`; an unknown class name raises (there is no try here). */
    method Count(name: string) returns (r: Result<nat>)
      requires Valid()
      ensures Resolve(name).None? <==> r.Err?
      ensures r.Ok? ==> r.value == |Table(rows, Resolve(name).value)|
      ensures r.Ok? ==> r.value == |ToMap(Entries(rows, [Resolve(name).value]))|
    {
      var cls := Resolve(name);
      if cls.None? {
        return Err("module 'models' has no attribute '" + name + "'");
      }
      AllOfClassSize(rows, cls.value);
      r := Ok(|Table(rows, cls.value)|);
    }

    /** `count()` with the names of the `models` namespace given explicitly. */
    method CountNames(names: seq<string>) returns (r: Result<nat>)
      ensures r == CountOfNames(rows, names)
    {
      var clsCounter := 0;
      var i := 0;
      while i < |names|
        invariant 0 <= i <= |names|
        invariant CountOfNames(rows, names[..i]) == Ok(clsCounter)
      {
        var k := names[i];
        CountOfNamesStep(rows, names, i);
        if k != "BaseModel" {
          var cls := Resolve(k);
          if cls.None? {
            CountOfNamesErrSticks(rows, names, i + 1);
            assert names[..|names|] == names;
            return Err("no mapped class " + k);
          }
          clsCounter := clsCounter + |Table(rows, cls.value)|;
        }
        i := i + 1;
      }
      assert names[..i] == names;
      r := Ok(clsCounter);
    }
  }

  /** The loop `for elem in query: dic[key] = elem` of `all`, continuing a
      dictionary already built from the pairs `prefix`. */
  method AddQuery(dic: map<string, Obj>, ghost prefix: seq<(string, Obj)>, query: seq<Obj>) returns (d: map<string, Obj>)
    requires dic == ToMap(prefix)
    ensures d == ToMap(prefix + TableEntries(query))
  {
    d := dic;
    var j := 0;
    assert prefix + TableEntries(query[..0]) == prefix;
    while j < |query|
      invariant 0 <= j <= |query|
      invariant d == ToMap(prefix + TableEntries(query[..j]))
    {
      var elem := query[j];
      d := d[Key(elem.kind, elem.id) := elem];
      InsertStep(prefix, query, j);
      j := j + 1;
    }
    assert query[..j] == query;
  }

  // ---------------------------------------------------------------------------
  // Lemmas

  lemma TableEntriesSnoc(t: seq<Obj>, o: Obj)
    ensures TableEntries(t + [o]) == TableEntries(t) + [(Key(o.kind, o.id), o)]
  {
    var l := TableEntries(t + [o]);
    var r := TableEntries(t) + [(Key(o.kind, o.id), o)];
    assert |l| == |r|;
    forall i | 0 <= i < |l| ensures l[i] == r[i] {
      if i < |t| {
        assert (t + [o])[i] == t[i];
      }
    }
  }

  /** One turn of the loop `dic[key] = elem` in `all`. */
  lemma InsertStep(prefix: seq<(string, Obj)>, query: seq<Obj>, j: nat)
    requires j < |query|
    ensures ToMap(prefix + TableEntries(query[..j + 1]))
         == ToMap(prefix + TableEntries(query[..j]))[Key(query[j].kind, query[j].id) := query[j]]
  {
    var e := (Key(query[j].kind, query[j].id), query[j]);
    assert TableEntries(query[..j + 1]) == TableEntries(query[..j]) + [e] by {
      assert query[..j + 1] == query[..j] + [query[j]];
      TableEntriesSnoc(query[..j], query[j]);
    }
    var es := prefix + TableEntries(query[..j + 1]);
    assert es == (prefix + TableEntries(query[..j])) + [e];
  }

  lemma {:induction false} FirstIndexFindsAny(t: seq<Obj>, id: string)
    ensures FirstIndex(t, id) < |t| <==> HasId(t, id)
  {
  }

  /** What `new` does to one table: the object is in it afterwards, every
      other row was there before, and it grew by one exactly for a new id. */
  lemma {:induction false} UpsertSpec(t: seq<Obj>, o: Obj)
    ensures o in Upsert(t, o)
    ensures forall x :: x in Upsert(t, o) ==> x == o || x in t
    ensures |Upsert(t, o)| == |t| + (if HasId(t, o.id) then 0 else 1)
    ensures UniqueIds(t) ==> UniqueIds(Upsert(t, o))
  {
    var i := FirstIndex(t, o.id);
    FirstIndexFindsAny(t, o.id);
    var u := Upsert(t, o);
    if i < |t| {
      assert u[i] == o;
      forall x | x in u ensures x == o || x in t {
        var k :| 0 <= k < |u| && u[k] == x;
        if k != i { assert t[k] == x; }
      }
      if UniqueIds(t) {
        forall a, b | 0 <= a < b < |u| ensures u[a].id != u[b].id {
          if a != i && b != i { assert u[a] == t[a] && u[b] == t[b]; }
        }
      }
    } else {
      assert u[|t|] == o;
      forall x | x in u ensures x == o || x in t {
        var k :| 0 <= k < |u| && u[k] == x;
        if k < |t| { assert t[k] == x; }
      }
    }
  }

  lemma UpsertWellFormed(rows: Tables, o: Obj)
    requires WellFormed(rows)
    ensures WellFormed(rows[o.kind := Upsert(Table(rows, o.kind), o)])
  {
    var t := Table(rows, o.kind);
    var rows' := rows[o.kind := Upsert(t, o)];
    UpsertSpec(t, o);
    forall c
      ensures KindsAre(Table(rows', c), c) && UniqueIds(Table(rows', c))
    {
      if c == o.kind {
        assert KindsAre(t, c) && UniqueIds(t);
      } else {
        assert Table(rows', c) == Table(rows, c);
      }
    }
  }

  lemma {:induction false} RemoveIdMembers(t: seq<Obj>, id: string)
    ensures forall o :: o in RemoveId(t, id) <==> o in t && o.id != id
  {
    if t != [] {
      RemoveIdMembers(t[1..], id);
      assert t == [t[0]] + t[1..];
    }
  }

  lemma {:induction false} RemoveIdLength(t: seq<Obj>, id: string)
    requires UniqueIds(t)
    ensures |RemoveId(t, id)| == |t| - (if HasId(t, id) then 1 else 0)
  {
    if t != [] {
      var rest := t[1..];
      assert UniqueIds(rest);
      RemoveIdLength(rest, id);
      if t[0].id == id {
        assert !HasId(rest, id);
      } else {
        assert HasId(t, id) == HasId(rest, id) by {
          if HasId(t, id) {
            var i :| 0 <= i < |t| && t[i].id == id;
            assert rest[i - 1].id == id;
          }
          if HasId(rest, id) {
            var i :| 0 <= i < |rest| && rest[i].id == id;
            assert t[i + 1].id == id;
          }
        }
      }
    }
  }

  lemma {:induction false} RemoveIdUnique(t: seq<Obj>, id: string)
    requires UniqueIds(t)
    ensures UniqueIds(RemoveId(t, id))
  {
    if t != [] {
      var rest := t[1..];
      assert UniqueIds(rest);
      RemoveIdUnique(rest, id);
      if t[0].id != id {
        RemoveIdMembers(rest, id);
        forall o | o in RemoveId(rest, id) ensures o.id != t[0].id {
          var k :| 0 <= k < |rest| && rest[k] == o;
          assert t[k + 1] == o;
        }
      }
    }
  }

  lemma RemoveWellFormed(rows: Tables, c: ClassName, id: string)
    requires WellFormed(rows)
    ensures WellFormed(rows[c := RemoveId(Table(rows, c), id)])
  {
    var t := Table(rows, c);
    var rows' := rows[c := RemoveId(t, id)];
    RemoveIdMembers(t, id);
    assert UniqueIds(t) && KindsAre(t, c);
    RemoveIdUnique(t, id);
    forall d
      ensures KindsAre(Table(rows', d), d) && UniqueIds(Table(rows', d))
    {
      if d != c {
        assert Table(rows', d) == Table(rows, d);
      }
    }
  }

  /** The dictionary's keys are exactly the pairs' keys, and each entry is
      one of the pairs. */
  lemma {:induction false} ToMapDomain(es: seq<(string, Obj)>)
    ensures forall k :: k in ToMap(es) <==> exists e :: e in es && e.0 == k
    ensures forall k :: k in ToMap(es) ==> (k, ToMap(es)[k]) in es
  {
    if es != [] {
      var init := es[..|es| - 1];
      assert es == init + [es[|es| - 1]];
      ToMapDomain(init);
    }
  }

  /** With distinct keys, the last pair's key is new to the dictionary of the
      pairs before it, whose keys are distinct too. */
  lemma DistinctLastKeyIsNew(es: seq<(string, Obj)>)
    requires DistinctKeys(es) && es != []
    ensures DistinctKeys(es[..|es| - 1])
    ensures es[|es| - 1].0 !in ToMap(es[..|es| - 1])
  {
    var init := es[..|es| - 1];
    var last := es[|es| - 1];
    assert DistinctKeys(init) by {
      forall i, j | 0 <= i < j < |init| ensures init[i].0 != init[j].0 {
        assert init[i] == es[i] && init[j] == es[j];
      }
    }
    ToMapDomain(init);
    forall e | e in init ensures e.0 != last.0 {
      var i :| 0 <= i < |init| && init[i] == e;
      assert es[i] == e;
    }
  }

  /** With distinct keys the dictionary has one entry per pair. */
  lemma {:induction false} ToMapSize(es: seq<(string, Obj)>)
    requires DistinctKeys(es)
    ensures |ToMap(es)| == |es|
  {
    if es != [] {
      DistinctLastKeyIsNew(es);
      ToMapSize(es[..|es| - 1]);
    }
  }

  /** With distinct keys the entry under each pair's key is that pair's object. */
  lemma {:induction false} ToMapValues(es: seq<(string, Obj)>)
    requires DistinctKeys(es)
    ensures forall e :: e in es ==> e.0 in ToMap(es) && ToMap(es)[e.0] == e.1
  {
    if es != [] {
      var init := es[..|es| - 1];
      var last := es[|es| - 1];
      DistinctLastKeyIsNew(es);
      ToMapValues(init);
      forall e | e in es ensures e.0 in ToMap(es) && ToMap(es)[e.0] == e.1 {
        assert es == init + [last];
        if e != last {
          assert e in init;
        }
      }
    }
  }

  /** With distinct keys the dictionary has one entry per pair, and the entry
      under each pair's key is that pair's object. */
  lemma ToMapDistinct(es: seq<(string, Obj)>)
    requires DistinctKeys(es)
    ensures |ToMap(es)| == |es|
    ensures forall e :: e in es ==> e.0 in ToMap(es) && ToMap(es)[e.0] == e.1
  {
    ToMapSize(es);
    ToMapValues(es);
  }

  lemma EntriesSnoc(rows: Tables, cs: seq<ClassName>, c: ClassName)
    ensures Entries(rows, cs + [c]) == Entries(rows, cs) + TableEntries(Table(rows, c))
    ensures SumSizes(rows, cs + [c]) == SumSizes(rows, cs) + |Table(rows, c)|
  {
    assert (cs + [c])[..|cs|] == cs;
  }

  /** There are as many pairs as rows in the queried tables. */
  lemma {:induction false} EntriesSize(rows: Tables, cs: seq<ClassName>)
    ensures |Entries(rows, cs)| == SumSizes(rows, cs)
  {
    if cs != [] {
      EntriesSize(rows, cs[..|cs| - 1]);
    }
  }

  lemma EntriesPrefixStep(rows: Tables, cs: seq<ClassName>, i: nat)
    requires i < |cs|
    ensures Entries(rows, cs[..i + 1]) == Entries(rows, cs[..i]) + TableEntries(Table(rows, cs[i]))
  {
    assert cs[..i + 1][..i] == cs[..i];
  }

  /** Every pair of the queries over `cs` is a stored object of one of those
      classes under its own composite key. */
  lemma {:induction false} EntriesSound(rows: Tables, cs: seq<ClassName>)
    requires WellFormed(rows)
    ensures forall e :: e in Entries(rows, cs) ==>
      e.1.kind in cs && e.1 in Table(rows, e.1.kind) && e.0 == Key(e.1.kind, e.1.id)
  {
    if cs != [] {
      var init := cs[..|cs| - 1];
      var c := cs[|cs| - 1];
      EntriesSound(rows, init);
      var t := Table(rows, c);
      assert KindsAre(t, c);
      forall e | e in Entries(rows, cs)
        ensures e.1.kind in cs && e.1 in Table(rows, e.1.kind) && e.0 == Key(e.1.kind, e.1.id)
      {
        assert cs == init + [c];
        if e !in Entries(rows, init) {
          assert e in TableEntries(t);
          var j :| 0 <= j < |t| && TableEntries(t)[j] == e;
          assert e.1 == t[j];
        }
      }
    }
  }

  /** Every pair of the queries over `cs` is a stored object of one of those
      classes under its own composite key, and there are as many pairs as rows. */
  lemma EntriesShape(rows: Tables, cs: seq<ClassName>)
    requires WellFormed(rows)
    ensures |Entries(rows, cs)| == SumSizes(rows, cs)
    ensures forall e :: e in Entries(rows, cs) ==>
      e.1.kind in cs && e.1 in Table(rows, e.1.kind) && e.0 == Key(e.1.kind, e.1.id)
  {
    EntriesSize(rows, cs);
    EntriesSound(rows, cs);
  }

  /** Every stored object of a queried class appears as a pair under its key. */
  lemma {:induction false} EntriesComplete(rows: Tables, cs: seq<ClassName>, c: ClassName, o: Obj)
    requires c in cs && o in Table(rows, c)
    ensures (Key(o.kind, o.id), o) in Entries(rows, cs)
  {
    var init := cs[..|cs| - 1];
    var last := cs[|cs| - 1];
    assert cs == init + [last];
    EntriesSnoc(rows, init, last);
    if c == last {
      var t := Table(rows, c);
      var j :| 0 <= j < |t| && t[j] == o;
      assert TableEntries(t)[j] == (Key(o.kind, o.id), o);
    } else {
      EntriesComplete(rows, init, c, o);
    }
  }

  ghost predicate NoDupClasses(cs: seq<ClassName>)
  {
    forall i, j :: 0 <= i < j < |cs| ==> cs[i] != cs[j]
  }

  /** Within one well-formed table no two pairs share a key. */
  lemma TableEntriesDistinct(t: seq<Obj>, c: ClassName)
    requires KindsAre(t, c) && UniqueIds(t)
    ensures DistinctKeys(TableEntries(t))
  {
    var es := TableEntries(t);
    forall i, j | 0 <= i < j < |es| ensures es[i].0 != es[j].0 {
      assert t[i] in t && t[j] in t;
      KeyInjective(c, t[i].id, c, t[j].id);
    }
  }

  lemma AppendDistinct(a: seq<(string, Obj)>, b: seq<(string, Obj)>)
    requires DistinctKeys(a) && DistinctKeys(b)
    requires forall x, y :: x in a && y in b ==> x.0 != y.0
    ensures DistinctKeys(a + b)
  {
    var es := a + b;
    forall i, j | 0 <= i < j < |es| ensures es[i].0 != es[j].0 {
      if j < |a| {
        assert es[i] == a[i] && es[j] == a[j];
      } else if |a| <= i {
        assert es[i] == b[i - |a|] && es[j] == b[j - |a|];
      } else {
        assert es[i] == a[i] && es[j] == b[j - |a|];
        assert a[i] in a && b[j - |a|] in b;
      }
    }
  }

  /** Over distinct classes of a well-formed store, no two pairs share a key. */
  lemma {:induction false} EntriesDistinct(rows: Tables, cs: seq<ClassName>)
    requires WellFormed(rows) && NoDupClasses(cs)
    ensures DistinctKeys(Entries(rows, cs))
  {
    if cs != [] {
      var init := cs[..|cs| - 1];
      var c := cs[|cs| - 1];
      assert cs == init + [c];
      assert NoDupClasses(init);
      assert c !in init;
      EntriesDistinct(rows, init);
      EntriesSnoc(rows, init, c);
      EntriesShape(rows, init);
      var t := Table(rows, c);
      assert KindsAre(t, c) && UniqueIds(t);
      TableEntriesDistinct(t, c);
      var a := Entries(rows, init);
      var b := TableEntries(t);
      forall x, y | x in a && y in b ensures x.0 != y.0 {
        var k :| 0 <= k < |b| && b[k] == y;
        assert t[k] in t;
        KeyInjective(x.1.kind, x.1.id, c, t[k].id);
      }
      AppendDistinct(a, b);
    }
  }

  /** `all(cls)` over one class holds exactly one entry per row of that class,
      and its size is that table's size. */
  lemma AllOfClassSize(rows: Tables, c: ClassName)
    requires WellFormed(rows)
    ensures |ToMap(Entries(rows, [c]))| == |Table(rows, c)|
  {
    EntriesShape(rows, [c]);
    EntriesDistinct(rows, [c]);
    ToMapDistinct(Entries(rows, [c]));
    EntriesSnoc(rows, [], c);
  }

  lemma KeyPrefix(c: ClassName, id: string)
    ensures Name(c) + "." <= Key(c, id) && ClassPart(Key(c, id)) == Name(c)
  {
    KeyParts(c, id);
  }

  /** `all(cls)` holds every row of the class under its composite key. */
  lemma AllOfClassComplete(rows: Tables, c: ClassName)
    requires WellFormed(rows)
    ensures forall o :: o in Table(rows, c) ==>
      Key(c, o.id) in ToMap(Entries(rows, [c])) && ToMap(Entries(rows, [c]))[Key(c, o.id)] == o
  {
    var es := Entries(rows, [c]);
    EntriesDistinct(rows, [c]);
    ToMapDistinct(es);
    assert KindsAre(Table(rows, c), c);
    forall o | o in Table(rows, c) ensures (Key(c, o.id), o) in es {
      EntriesComplete(rows, [c], c, o);
    }
  }

  /** In `all(cls)` every key is `"<ClassName>.<id>"` of the row it holds, so
      it starts with the class name followed by "." and its class part is the
      class name. */
  lemma AllOfClassSound(rows: Tables, c: ClassName)
    requires WellFormed(rows)
    ensures forall k :: k in ToMap(Entries(rows, [c])) ==>
      var o := ToMap(Entries(rows, [c]))[k];
      o in Table(rows, c) && k == Key(c, o.id) && Name(c) + "." <= k && ClassPart(k) == Name(c)
  {
    var es := Entries(rows, [c]);
    var m := ToMap(es);
    EntriesSound(rows, [c]);
    ToMapDomain(es);
    forall k | k in m
      ensures m[k] in Table(rows, c) && k == Key(c, m[k].id) && Name(c) + "." <= k && ClassPart(k) == Name(c)
    {
      assert (k, m[k]) in es;
      KeyPrefix(c, m[k].id);
    }
  }

  /** `all()` with no class has one entry per stored row of the six classes. */
  lemma AllClassesSize(rows: Tables)
    requires WellFormed(rows)
    ensures |ToMap(Entries(rows, AllClasses))| == SumSizes(rows, AllClasses)
  {
    EntriesShape(rows, AllClasses);
    EntriesDistinct(rows, AllClasses);
    ToMapDistinct(Entries(rows, AllClasses));
  }

  /** `all()` with no class holds every stored object of every class under
      its composite key. */
  lemma AllClassesComplete(rows: Tables)
    requires WellFormed(rows)
    ensures forall c, o :: o in Table(rows, c) ==>
      Key(c, o.id) in ToMap(Entries(rows, AllClasses)) && ToMap(Entries(rows, AllClasses))[Key(c, o.id)] == o
  {
    var es := Entries(rows, AllClasses);
    EntriesDistinct(rows, AllClasses);
    ToMapDistinct(es);
    forall c, o | o in Table(rows, c) ensures Key(c, o.id) in ToMap(es) && ToMap(es)[Key(c, o.id)] == o {
      assert c in AllClasses;
      assert KindsAre(Table(rows, c), c);
      EntriesComplete(rows, AllClasses, c, o);
    }
  }

  /** Every entry of `all()` is a stored object under its own composite key;
      nothing else is in it. */
  lemma AllClassesSound(rows: Tables)
    requires WellFormed(rows)
    ensures forall k :: k in ToMap(Entries(rows, AllClasses)) ==>
      var o := ToMap(Entries(rows, AllClasses))[k];
      o in Table(rows, o.kind) && k == Key(o.kind, o.id)
  {
    var es := Entries(rows, AllClasses);
    EntriesShape(rows, AllClasses);
    ToMapDomain(es);
  }

  lemma CountOfNamesStep(rows: Tables, names: seq<string>, i: nat)
    requires i < |names|
    ensures CountOfNames(rows, names[..i + 1]) == CountStep(rows, CountOfNames(rows, names[..i]), names[i])
  {
    assert names[..i + 1][..i] == names[..i];
  }

  lemma {:induction false} CountOfNamesErrSticks(rows: Tables, names: seq<string>, n: nat)
    requires n <= |names| && CountOfNames(rows, names[..n]).Err?
    ensures CountOfNames(rows, names) == CountOfNames(rows, names[..n])
  {
    if n < |names| {
      var m := |names| - 1;
      assert names[..m][..n] == names[..n];
      CountOfNamesErrSticks(rows, names[..m], n);
      assert names[..m] == names[..|names| - 1];
    } else {
      assert names[..n] == names;
    }
  }

  /** `count()` fails exactly when some name other than "BaseModel" has no
      mapped class. */
  lemma {:induction false} CountOfNamesFails(rows: Tables, names: seq<string>)
    ensures CountOfNames(rows, names).Ok? <==> forall k :: k in names && k != "BaseModel" ==> Resolve(k).Some?
  {
    if names != [] {
      var init := names[..|names| - 1];
      assert names == init + [names[|names| - 1]];
      CountOfNamesFails(rows, init);
    }
  }

  lemma {:induction false} CountOfNamesSums(rows: Tables, cs: seq<ClassName>)
    ensures CountOfNames(rows, Names(cs)) == Ok(SumSizes(rows, cs))
  {
    if cs != [] {
      var init := cs[..|cs| - 1];
      assert Names(cs)[..|cs| - 1] == Names(init);
      CountOfNamesSums(rows, init);
      assert Resolve(Name(cs[|cs| - 1])) == Some(cs[|cs| - 1]);
    }
  }

  /** `count()` over the names of distinct classes is the size of `all()` over
      those classes; over the six it is the size of `all()`. */
  lemma CountNamesIsSizeOfAll(rows: Tables, cs: seq<ClassName>)
    requires WellFormed(rows) && NoDupClasses(cs)
    ensures CountOfNames(rows, Names(cs)) == Ok(|ToMap(Entries(rows, cs))|)
  {
    CountOfNamesSums(rows, cs);
    EntriesShape(rows, cs);
    EntriesDistinct(rows, cs);
    ToMapDistinct(Entries(rows, cs));
  }

  /** After `new(obj)` (and whether or not `save()` follows, since it leaves
      the rows alone) `all()` holds obj under its composite key, and the
      class's count grew by one exactly when the id was new. */
  lemma NewIsVisible(rows: Tables, o: Obj)
    requires WellFormed(rows)
    ensures var rows' := rows[o.kind := Upsert(Table(rows, o.kind), o)];
      && Key(o.kind, o.id) in ToMap(Entries(rows', AllClasses))
      && ToMap(Entries(rows', AllClasses))[Key(o.kind, o.id)] == o
      && |Table(rows', o.kind)| == |Table(rows, o.kind)| + (if HasId(Table(rows, o.kind), o.id) then 0 else 1)
  {
    var t := Table(rows, o.kind);
    var rows' := rows[o.kind := Upsert(t, o)];
    UpsertWellFormed(rows, o);
    UpsertSpec(t, o);
    AllClassesComplete(rows');
    assert o in Table(rows', o.kind);
  }

  /** After `delete(obj)` of a stored object, its key is gone from `all()` and
      its class's count dropped by one; other classes are untouched. */
  lemma DeleteIsInvisible(rows: Tables, o: Obj)
    requires WellFormed(rows) && HasId(Table(rows, o.kind), o.id)
    ensures var rows' := rows[o.kind := RemoveId(Table(rows, o.kind), o.id)];
      && Key(o.kind, o.id) !in ToMap(Entries(rows', AllClasses))
      && |Table(rows', o.kind)| == |Table(rows, o.kind)| - 1
      && forall c :: c != o.kind ==> Table(rows', c) == Table(rows, c)
  {
    var t := Table(rows, o.kind);
    var rows' := rows[o.kind := RemoveId(t, o.id)];
    assert |Table(rows', o.kind)| == |t| - 1 by {
      assert UniqueIds(t);
      RemoveIdLength(t, o.id);
    }
    assert Key(o.kind, o.id) !in ToMap(Entries(rows', AllClasses)) by {
      RemoveWellFormed(rows, o.kind, o.id);
      AllClassesSound(rows');
      RemoveIdMembers(t, o.id);
      var m := ToMap(Entries(rows', AllClasses));
      forall k | k in m ensures k != Key(o.kind, o.id) {
        var v := m[k];
        assert v in Table(rows', v.kind) && k == Key(v.kind, v.id);
        KeyInjective(o.kind, o.id, v.kind, v.id);
      }
    }
  }
}
