/**
 * The plugin loader of `grapy/utils.py`: the dotted-name split that
 * `import_module` performs before importing, and `import_pipelines`,
 * which parses `{'name:order': arguments}` entries and orders them by a
 * stable sort. The import itself is dynamic and is not modelled: the
 * loader here yields the specification of each object it would create.
 */
module Utils {
  import opened Wrappers
  import opened Py
  import opened Text
  import opened Dicts
  import opened Exceptions

  // ---------------------------------------------------------------- import_module

  /**
   * `(name[:idx], name[idx+1:])` with `idx = name.rfind('.')`: the module
   * path and the attribute name. Without a dot, `idx` is -1, so the
   * attribute is the whole name and the "module path" is the name with its
   * last character cut off, as Python's negative slicing makes it.
   */
  function SplitDotted(name: string): (r: (string, string))
    ensures '.' in name ==> name == r.0 + "." + r.1 && '.' !in r.1
    ensures '.' !in name ==> r.1 == name && r.0 == (if name == [] then [] else name[..|name| - 1])
  {
    var idx := RFind(name, '.');
    if idx < 0 then
      (if name == [] then [] else name[..|name| - 1], name)
    else
      assert name == name[..idx] + "." + name[idx + 1..];
      (name[..idx], name[idx + 1..])
  }

  /** A dotted name splits back into the module path and attribute it was made of. */
  lemma SplitDottedJoin(path: string, attr: string)
    requires '.' !in attr
    ensures SplitDotted(path + "." + attr) == (path, attr)
  {
    var name := path + "." + attr;
    assert name[|path|] == '.';
    assert name[|path| + 1..] == attr;
    var idx := RFind(name, '.');
    assert forall k :: |path| < k < |name| ==> name[k] == attr[k - |path| - 1];
    assert idx == |path|;
    assert name[..idx] == path;
  }

  // ---------------------------------------------------------------- import_pipelines

  /**
   * What one entry of `import_pipelines` describes: the object's dotted
   * name, its sort order, and the positional and keyword arguments it is
   * created with.
   */
  datatype Plugin = Plugin(name: string, order: int, args: Value, kwargs: Value)

  /**
   * The positional and keyword arguments for an entry's value: a list or
   * tuple is the positional arguments; a dict with an `args` or `kwargs`
   * key supplies those (defaulting to `()` and `{}`); any other dict is
   * the keyword arguments; None gives none; anything else is the one
   * positional argument.
   */
  function Arguments(values: Value): (r: (Value, Value))
    ensures (values.ListV? || values.TupleV?) ==> r == (values, DictV([]))
    ensures values.DictV? && ("args" in KeysOf(values.entries) || "kwargs" in KeysOf(values.entries)) ==>
              r == (Get(values.entries, "args", TupleV([])), Get(values.entries, "kwargs", DictV([])))
    ensures values.DictV? && "args" !in KeysOf(values.entries) && "kwargs" !in KeysOf(values.entries) ==>
              r == (ListV([]), values)
    ensures values.NoneV? ==> r == (ListV([]), DictV([]))
    ensures (values.BoolV? || values.IntV? || values.StrV?) ==> r == (ListV([values]), DictV([]))
  {
    match values
    case ListV(_) => (values, DictV([]))
    case TupleV(_) => (values, DictV([]))
    case DictV(es) =>
      if "args" in KeysOf(es) || "kwargs" in KeysOf(es) then
        (Get(es, "args", TupleV([])), Get(es, "kwargs", DictV([])))
      else (ListV([]), values)
    case NoneV => (ListV([]), DictV([]))
    case _ => (ListV([values]), DictV([]))
  }

  /**
   * One entry `key: values`. A key `name:idx` is cut at its first ':'
   * into the name and `int(idx)`, which raises ValueError when `idx` is
   * not an integer; a key without ':' is the name, with order 0.
   */
  function ParseEntry(key: string, values: Value): Result<Plugin, Exc>
  {
    var idx := Find(key, ':');
    var args := Arguments(values);
    if idx > -1 then
      match ParseInt(key[idx + 1..])
      case None => Err(ValueError)
      case Some(order) => Ok(Plugin(key[..idx], order, args.0, args.1))
    else Ok(Plugin(key, 0, args.0, args.1))
  }

  /** A key without ':' is the name itself, with order 0. */
  lemma EntryWithoutOrder(key: string, values: Value)
    requires ':' !in key
    ensures ParseEntry(key, values) == Ok(Plugin(key, 0, Arguments(values).0, Arguments(values).1))
  {
  }

  /** `name + ':' + str(i)` parses back to the name and the order `i`. */
  lemma EntryWithOrder(name: string, i: int, values: Value)
    requires ':' !in name
    ensures ParseEntry(name + ":" + Decimal(i), values) == Ok(Plugin(name, i, Arguments(values).0, Arguments(values).1))
  {
    var key := name + ":" + Decimal(i);
    assert key == name + [':'] + Decimal(i);
    FindAfterPrefix(name, ':', Decimal(i));
    assert key[|name| + 1..] == Decimal(i);
    assert key[..|name|] == name;
    ParseDecimal(i);
  }

  /** An order after ':' that is not an integer raises ValueError. */
  lemma EntryBadOrder(name: string, idx: string, values: Value)
    requires ':' !in name
    requires ParseInt(idx).None?
    ensures ParseEntry(name + ":" + idx, values) == Err(ValueError)
  {
    var key := name + ":" + idx;
    assert key == name + [':'] + idx;
    FindAfterPrefix(name, ':', idx);
    assert key[|name| + 1..] == idx;
  }

  /** The elements mapped in order by `f`; the first that fails aborts the whole. */
  function MapAll<A, B>(f: A -> Result<B, Exc>, xs: seq<A>): (r: Result<seq<B>, Exc>)
    ensures r.Ok? ==> |r.value| == |xs|
  {
    if xs == [] then Ok([])
    else
      match f(xs[0])
      case Err(e) => Err(e)
      case Ok(y) =>
        match MapAll(f, xs[1..])
        case Err(e) => Err(e)
        case Ok(ys) => Ok([y] + ys)
  }

  /** Mapping succeeds exactly when every element maps, and then gives each one's result at its place. */
  lemma {:induction false} MapAllSpec<A, B>(f: A -> Result<B, Exc>, xs: seq<A>)
    ensures MapAll(f, xs).Ok? <==> forall i :: 0 <= i < |xs| ==> f(xs[i]).Ok?
    ensures MapAll(f, xs).Ok? ==> forall i :: 0 <= i < |xs| ==> MapAll(f, xs).value[i] == f(xs[i]).value
  {
    if xs != [] {
      var rest := xs[1..];
      MapAllSpec(f, rest);
      assert forall i :: 0 <= i < |rest| ==> rest[i] == xs[i + 1];
      if f(xs[0]).Ok? && !MapAll(f, rest).Ok? {
        var i :| 0 <= i < |rest| && !f(rest[i]).Ok?;
        assert !f(xs[i + 1]).Ok?;
      }
    }
  }

  /** One more element at the end: the prefix's error stands, else the element's result is appended. */
  lemma {:induction false} MapAllSnoc<A, B>(f: A -> Result<B, Exc>, xs: seq<A>, y: A)
    ensures MapAll(f, xs + [y]) ==
              match MapAll(f, xs)
              case Err(e) => Err(e)
              case Ok(ps) => (match f(y) case Err(e) => Err(e) case Ok(p) => Ok(ps + [p]))
  {
    if xs == [] {
      assert xs + [y] == [y];
      assert [y][1..] == [];
      assert MapAll(f, xs) == Ok([]);
      if f(y).Ok? {
        assert [f(y).value] + [] == [] + [f(y).value];
      }
    } else {
      assert (xs + [y])[0] == xs[0];
      assert (xs + [y])[1..] == xs[1..] + [y];
      MapAllSnoc(f, xs[1..], y);
      if f(xs[0]).Ok? && MapAll(f, xs[1..]).Ok? && f(y).Ok? {
        var p0, ps, p := f(xs[0]).value, MapAll(f, xs[1..]).value, f(y).value;
        assert [p0] + (ps + [p]) == ([p0] + ps) + [p];
      }
    }
  }

  /** Once a prefix fails, what follows it does not matter. */
  lemma {:induction false} MapAllFailed<A, B>(f: A -> Result<B, Exc>, xs: seq<A>, ys: seq<A>)
    requires MapAll(f, xs).Err?
    ensures MapAll(f, xs + ys) == MapAll(f, xs)
  {
    assert (xs + ys)[0] == xs[0];
    assert (xs + ys)[1..] == xs[1..] + ys;
    if f(xs[0]).Ok? {
      MapAllFailed(f, xs[1..], ys);
    }
  }

  function ParseItem(entry: (string, Value)): Result<Plugin, Exc>
  {
    ParseEntry(entry.0, entry.1)
  }

  /** The entries parsed in order; the first entry that raises aborts the whole. */
  function ParseAll(pipelines: Dict): (r: Result<seq<Plugin>, Exc>)
    ensures r.Ok? ==> |r.value| == |pipelines|
  {
    MapAll(ParseItem, pipelines)
  }

  /**
   * Parsing succeeds exactly when every entry parses, and then yields one
   * result per entry, in input order.
   */
  lemma ParseAllSpec(pipelines: Dict)
    ensures ParseAll(pipelines).Ok? <==> forall i :: 0 <= i < |pipelines| ==> ParseEntry(pipelines[i].0, pipelines[i].1).Ok?
    ensures ParseAll(pipelines).Ok? ==>
              forall i :: 0 <= i < |pipelines| ==> ParseAll(pipelines).value[i] == ParseEntry(pipelines[i].0, pipelines[i].1).value
  {
    MapAllSpec(ParseItem, pipelines);
  }

  // ---------------------------------------------------------------- sorted

  predicate Sorted(ps: seq<Plugin>)
  {
    forall i, j :: 0 <= i < j < |ps| ==> ps[i].order <= ps[j].order
  }

  /** The entries of `ps` with order `o`, in the order they appear. */
  function WithOrder(ps: seq<Plugin>, o: int): seq<Plugin>
  {
    if ps == [] then [] else (if ps[0].order == o then [ps[0]] else []) + WithOrder(ps[1..], o)
  }

  /** Places `p` before the first entry of `ps` whose order is not smaller. */
  function Insert(p: Plugin, ps: seq<Plugin>): seq<Plugin>
  {
    if ps == [] || p.order <= ps[0].order then [p] + ps else [ps[0]] + Insert(p, ps[1..])
  }

  /** `sorted(ps, key=lambda x: x.order)`: Python's sort is stable. */
  function SortByOrder(ps: seq<Plugin>): seq<Plugin>
  {
    if ps == [] then [] else Insert(ps[0], SortByOrder(ps[1..]))
  }

  lemma {:induction false} InsertSorted(p: Plugin, ps: seq<Plugin>)
    requires Sorted(ps)
    ensures Sorted(Insert(p, ps))
  {
    if ps != [] && p.order > ps[0].order {
      var rest := Insert(p, ps[1..]);
      InsertSorted(p, ps[1..]);
      InsertPermutes(p, ps[1..]);
      forall k | 0 <= k < |rest|
        ensures ps[0].order <= rest[k].order
      {
        assert rest[k] in multiset(ps[1..]) + multiset{p};
        if rest[k] != p {
          var m :| 0 <= m < |ps[1..]| && ps[1..][m] == rest[k];
          assert ps[m + 1] == rest[k];
        }
      }
      SortedCons(ps[0], rest);
    } else {
      SortedCons(p, ps);
    }
  }

  /** An entry no later than any of a sorted sequence goes in front of it. */
  lemma SortedCons(h: Plugin, rest: seq<Plugin>)
    requires Sorted(rest) && forall k :: 0 <= k < |rest| ==> h.order <= rest[k].order
    ensures Sorted([h] + rest)
  {
    var r := [h] + rest;
    forall i, j | 0 <= i < j < |r|
      ensures r[i].order <= r[j].order
    {
      assert r[j] == rest[j - 1];
      if i > 0 {
        assert r[i] == rest[i - 1];
      }
    }
  }

  lemma {:induction false} InsertPermutes(p: Plugin, ps: seq<Plugin>)
    ensures multiset(Insert(p, ps)) == multiset(ps) + multiset{p}
  {
    if ps != [] && p.order > ps[0].order {
      InsertPermutes(p, ps[1..]);
      assert ps == [ps[0]] + ps[1..];
    }
  }

  lemma {:induction false} InsertStable(p: Plugin, ps: seq<Plugin>, o: int)
    ensures WithOrder(Insert(p, ps), o) == (if p.order == o then [p] else []) + WithOrder(ps, o)
  {
    if ps != [] && p.order > ps[0].order {
      var rest := Insert(p, ps[1..]);
      InsertStable(p, ps[1..], o);
      var r := [ps[0]] + rest;
      assert r[1..] == rest;
      var x := if ps[0].order == o then [ps[0]] else [];
      var y := if p.order == o then [p] else [];
      var w := WithOrder(ps[1..], o);
      assert WithOrder(r, o) == x + (y + w);
      assert WithOrder(ps, o) == x + w;
      assert x == [] || y == [];
      assert x + (y + w) == y + (x + w);
    } else {
      assert ([p] + ps)[1..] == ps;
    }
  }

  /**
   * The sort is ascending, a permutation, and stable: the entries with one
   * order keep their relative input order.
   */
  lemma {:induction false} SortByOrderSpec(ps: seq<Plugin>)
    ensures Sorted(SortByOrder(ps))
    ensures multiset(SortByOrder(ps)) == multiset(ps)
    ensures forall o :: WithOrder(SortByOrder(ps), o) == WithOrder(ps, o)
  {
    if ps != [] {
      SortByOrderSpec(ps[1..]);
      InsertSorted(ps[0], SortByOrder(ps[1..]));
      InsertPermutes(ps[0], SortByOrder(ps[1..]));
      forall o
        ensures WithOrder(SortByOrder(ps), o) == WithOrder(ps, o)
      {
        InsertStable(ps[0], SortByOrder(ps[1..]), o);
      }
      assert ps == [ps[0]] + ps[1..];
    }
  }

  /**
   * `import_pipelines(pipelines)`: every entry parsed in dictionary order,
   * then the results sorted by order. The objects the entries name are
   * created by the dynamic import, which is not modelled.
   */
  method ImportPipelines(pipelines: Dict) returns (r: Result<seq<Plugin>, Exc>)
    ensures r.Ok? <==> ParseAll(pipelines).Ok?
    ensures r.Ok? ==> r.value == SortByOrder(ParseAll(pipelines).value)
    ensures r.Err? ==> r.error == ParseAll(pipelines).error
  {
    var parsed := ParseEach(ParseItem, pipelines);
    if parsed.Err? {
      return Err(parsed.error);
    }
    r := Ok(SortByOrder(parsed.value));
  }

  /**
   * The loop of `import_pipelines`, over the entries in dictionary order
   * with the per-entry parse as `f`: the first entry that raises ends it.
   */
  method ParseEach<A, B>(f: A -> Result<B, Exc>, xs: seq<A>) returns (r: Result<seq<B>, Exc>)
    ensures r == MapAll(f, xs)
  {
    var collected: seq<B> := [];
    var i := 0;
    assert xs[..0] == [];
    while i < |xs|
      invariant 0 <= i <= |xs|
      invariant MapAll(f, xs[..i]) == Ok(collected)
    {
      var entry := f(xs[i]);
      assert xs[..i + 1] == xs[..i] + [xs[i]];
      MapAllSnoc(f, xs[..i], xs[i]);
      if entry.Err? {
        assert xs == xs[..i + 1] + xs[i + 1..];
        MapAllFailed(f, xs[..i + 1], xs[i + 1..]);
        return Err(entry.error);
      }
      collected := collected + [entry.value];
      i := i + 1;
    }
    assert xs[..i] == xs;
    r := Ok(collected);
  }
}
