/**
 * The item codec of `grapy/core/item.py`. An item class declares a list
 * of typed fields; an item is a dictionary of values. `pack` writes one
 * '\x01'-separated slot per declared field, with the undeclared values
 * collected in the JSON-typed `extra` slot; `unpack` converts each slot
 * back by its declared type and merges a non-empty `extra` into the top
 * level. `dump_item` / `load_item` prefix the packed text with the item's
 * class name and the separator "\x02\x00\x00".
 */
module Item {
  import opened Wrappers
  import opened Py
  import opened Text
  import opened Dicts
  import opened Exceptions
  import Utf8
  import Utils

  /** One entry of an item class's `_fields`: a name and a type tag. */
  datatype Field = Field(name: string, tp: string)

  const ExtraName: string := "extra"
  const ExtraField: Field := Field("extra", "json")

  /** `Item._null_char`, the slot separator of `pack`. */
  const NullChar: char := '\U{0001}'

  /** The separator between class name and packed text in `dump_item`. */
  const RecordSep: string := "\U{0002}\U{0000}\U{0000}"

  // ---------------------------------------------------------------- fields

  /**
   * The class field list after an item is constructed: `extra` is
   * appended unless it is already declared, so it occurs exactly once if
   * it was absent and the list is otherwise unchanged.
   */
  function WithExtra(fields: seq<Field>): (r: seq<Field>)
    ensures ExtraField in r
    ensures fields <= r && |r| <= |fields| + 1
    ensures multiset(r)[ExtraField] == if ExtraField in fields then multiset(fields)[ExtraField] else 1
  {
    if ExtraField in fields then fields
    else
      assert multiset(fields)[ExtraField] == 0;
      fields + [ExtraField]
  }

  /** Constructing a second item of the class does not append `extra` again. */
  lemma WithExtraIdempotent(fields: seq<Field>)
    ensures WithExtra(WithExtra(fields)) == WithExtra(fields)
  {
  }

  function Names(fields: seq<Field>): (ns: seq<string>)
    ensures |ns| == |fields|
    ensures forall i :: 0 <= i < |fields| ==> ns[i] == fields[i].name
  {
    seq(|fields|, i requires 0 <= i < |fields| => fields[i].name)
  }

  predicate DistinctNames(fields: seq<Field>)
  {
    forall i, j :: 0 <= i < j < |fields| ==> fields[i].name != fields[j].name
  }

  /**
   * `dict(zip(keys, tps))[key]`: the type of the field named `key`; when a
   * name is declared twice the later declaration wins.
   */
  function TypeOf(fields: seq<Field>, key: string): string
  {
    if fields == [] then ""
    else if fields[|fields| - 1].name == key then fields[|fields| - 1].tp
    else TypeOf(fields[..|fields| - 1], key)
  }

  lemma {:induction false} TypeOfDeclared(fields: seq<Field>, i: int)
    requires DistinctNames(fields)
    requires 0 <= i < |fields|
    ensures TypeOf(fields, fields[i].name) == fields[i].tp
    decreases |fields|
  {
    var last := |fields| - 1;
    if i < last {
      var init := fields[..last];
      assert fields[last].name != fields[i].name;
      assert init[i] == fields[i];
      TypeOfDeclared(init, i);
    }
  }

  // ---------------------------------------------------------------- stripping

  /** What `item[k] = v` stores: a string without surrounding whitespace, anything else as it is. */
  function Clean(v: Value): Value
  {
    if v.StrV? then StrV(Strip(v.s)) else v
  }

  /** The caller's dict after `update` has stripped its string values. */
  function CleanAll(d: Dict): (r: Dict)
    ensures KeysOf(r) == KeysOf(d)
  {
    seq(|d|, i requires 0 <= i < |d| => (d[i].0, Clean(d[i].1)))
  }

  predicate IsClean(v: Value)
  {
    v.StrV? ==> Strip(v.s) == v.s
  }

  /** Every string an item holds is stripped. */
  predicate AllClean(d: Dict)
  {
    forall i :: 0 <= i < |d| ==> IsClean(d[i].1)
  }

  /** A value stored through `item[k] = v` is clean, and a non-string is stored unchanged. */
  lemma CleanIsClean(v: Value)
    ensures IsClean(Clean(v))
    ensures !v.StrV? ==> Clean(v) == v
    ensures v.StrV? ==> Clean(v) == StrV(Strip(v.s))
  {
    if v.StrV? {
      StripIdempotent(v.s);
    }
  }

  lemma CleanAllClean(d: Dict)
    ensures AllClean(CleanAll(d))
  {
    forall i | 0 <= i < |d|
      ensures IsClean(CleanAll(d)[i].1)
    {
      CleanIsClean(d[i].1);
    }
  }

  lemma {:induction false} AssignKeepsClean(d: Dict, k: string, v: Value)
    requires AllClean(d) && IsClean(v)
    ensures AllClean(Assign(d, k, v))
  {
    if d != [] && d[0].0 != k {
      assert AllClean(d[1..]) by {
        forall i | 0 <= i < |d[1..]| ensures IsClean(d[1..][i].1) {
          assert d[1..][i] == d[i + 1];
        }
      }
      AssignKeepsClean(d[1..], k, v);
      var r := [d[0]] + Assign(d[1..], k, v);
      forall i | 0 <= i < |r| ensures IsClean(r[i].1) {
        if i > 0 {
          assert r[i] == Assign(d[1..], k, v)[i - 1];
        }
      }
    } else if d != [] {
      var r := [(k, v)] + d[1..];
      forall i | 0 <= i < |r| ensures IsClean(r[i].1) {
        if i > 0 {
          assert r[i] == d[i];
        }
      }
    }
  }

  /** `d.update(e)` with clean values keeps a clean dict clean. */
  lemma {:induction false} UpdateKeepsClean(d: Dict, e: Dict)
    requires AllClean(d) && AllClean(e)
    ensures AllClean(UpdateDict(d, e))
    decreases |e|
  {
    if e != [] {
      AssignKeepsClean(d, e[0].0, e[0].1);
      assert AllClean(e[1..]) by {
        forall i | 0 <= i < |e[1..]| ensures IsClean(e[1..][i].1) {
          assert e[1..][i] == e[i + 1];
        }
      }
      UpdateKeepsClean(Assign(d, e[0].0, e[0].1), e[1..]);
    }
  }

  // ---------------------------------------------------------------- pack

  /** The item's dict after `pack` has popped the falsy values. */
  function Kept(d: Dict): (r: Dict)
    ensures forall i :: 0 <= i < |r| ==> Truthy(r[i].1) && r[i] in d
  {
    if d == [] then []
    else
      var rest := Kept(d[1..]);
      assert forall x :: x in d[1..] ==> x in d;
      if Truthy(d[0].1) then [d[0]] + rest else rest
  }

  lemma {:induction false} KeptLookup(d: Dict, k: string)
    requires DistinctKeys(d)
    ensures Lookup(Kept(d), k) == if Lookup(d, k).Some? && Truthy(Lookup(d, k).value) then Lookup(d, k) else None
  {
    if d != [] {
      var rest := d[1..];
      assert DistinctKeys(rest) by {
        forall i, j | 0 <= i < j < |rest| ensures rest[i].0 != rest[j].0 {
          assert rest[i] == d[i + 1] && rest[j] == d[j + 1];
        }
      }
      KeptLookup(rest, k);
      if d[0].0 == k {
        assert k !in KeysOf(rest) by {
          forall i | 0 <= i < |rest| ensures KeysOf(rest)[i] != k {
            assert rest[i] == d[i + 1];
          }
        }
      }
    }
  }

  lemma {:induction false} KeptDistinct(d: Dict)
    requires DistinctKeys(d)
    ensures DistinctKeys(Kept(d))
  {
    if d != [] {
      var rest := d[1..];
      assert DistinctKeys(rest) by {
        forall i, j | 0 <= i < j < |rest| ensures rest[i].0 != rest[j].0 {
          assert rest[i] == d[i + 1] && rest[j] == d[j + 1];
        }
      }
      KeptDistinct(rest);
      var kr := Kept(rest);
      if Truthy(d[0].1) {
        var r := [d[0]] + kr;
        forall i, j | 0 <= i < j < |r| ensures r[i].0 != r[j].0 {
          assert r[j] == kr[j - 1];
          if i == 0 {
            assert kr[j - 1] in rest;
            var m :| 0 <= m < |rest| && rest[m] == kr[j - 1];
            assert rest[m] == d[m + 1];
          } else {
            assert r[i] == kr[i - 1];
          }
        }
      }
    }
  }

  predicate Distinct(ks: seq<string>)
  {
    forall i, j :: 0 <= i < j < |ks| ==> ks[i] != ks[j]
  }

  /** `filter(lambda x: x not in names, ks)`. */
  function Undeclared(ks: seq<string>, names: seq<string>): (r: seq<string>)
    ensures forall i :: 0 <= i < |r| ==> r[i] in ks && r[i] !in names
  {
    if ks == [] then []
    else
      var rest := Undeclared(ks[1..], names);
      assert forall x :: x in ks[1..] ==> x in ks;
      if ks[0] !in names then [ks[0]] + rest else rest
  }

  lemma {:induction false} UndeclaredDistinct(ks: seq<string>, names: seq<string>)
    requires Distinct(ks)
    ensures Distinct(Undeclared(ks, names))
  {
    if ks != [] {
      var rest := ks[1..];
      UndeclaredDistinct(rest, names);
      var ur := Undeclared(rest, names);
      if ks[0] !in names {
        var r := [ks[0]] + ur;
        forall i, j | 0 <= i < j < |r| ensures r[i] != r[j] {
          assert r[j] == ur[j - 1];
          if i == 0 {
            var m :| 0 <= m < |rest| && rest[m] == ur[j - 1];
            assert rest[m] == ks[m + 1];
          } else {
            assert r[i] == ur[i - 1];
          }
        }
      }
    }
  }

  /**
   * `dict(zip(other_keys, map(lambda x: payload[x], other_keys)))` where
   * `other_keys` is one iterator that `zip` and `map` both draw from: each
   * pair takes a key, and the value of the key after it; an odd last key
   * is lost.
   */
  function Pairing(ks: seq<string>, d: Dict): (r: Dict)
    ensures |r| == |ks| / 2
    ensures forall m :: 0 <= m < |r| ==> r[m] == (ks[2 * m], Get(d, ks[2 * m + 1], NoneV))
    decreases |ks|
  {
    if |ks| < 2 then []
    else
      var rest := Pairing(ks[2..], d);
      var r := [(ks[0], Get(d, ks[1], NoneV))] + rest;
      assert forall m :: 1 <= m < |r| ==> r[m] == rest[m - 1] && ks[2..][2 * (m - 1)] == ks[2 * m];
      r
  }

  /** With distinct keys, the pairing's keys are distinct too. */
  lemma PairingDistinct(ks: seq<string>, d: Dict)
    requires Distinct(ks)
    ensures DistinctKeys(Pairing(ks, d))
  {
    var r := Pairing(ks, d);
    forall m, n | 0 <= m < n < |r| ensures r[m].0 != r[n].0 {
      assert r[m].0 == ks[2 * m] && r[n].0 == ks[2 * n];
    }
  }

  /** The undeclared entries as `pack` stores them in `extra`. */
  function Extras(fields: seq<Field>, d: Dict): Dict
  {
    var kept := Kept(d);
    Pairing(Undeclared(KeysOf(kept), Names(fields)), kept)
  }

  /** The dict whose declared keys `pack` writes out. */
  function PackPayload(fields: seq<Field>, d: Dict): Dict
  {
    Assign(Kept(d), ExtraName, DictV(Extras(fields, d)))
  }

  /** `_pack`: a falsy value is '', a JSON field is dumped, anything else is `str`'d. */
  function PackSlot(j: Json, tp: string, v: Value): string
  {
    if !Truthy(v) then "" else if tp == "json" then j.dumps(v) else Str(v)
  }

  function Slots(j: Json, fields: seq<Field>, d: Dict): seq<string>
  {
    var payload := PackPayload(fields, d);
    seq(|fields|, i requires 0 <= i < |fields| =>
      PackSlot(j, TypeOf(fields, fields[i].name), Get(payload, fields[i].name, StrV(""))))
  }

  /** `Item.pack()` for an item of a class with field list `fields`. */
  function Pack(j: Json, fields: seq<Field>, d: Dict): string
  {
    Join(NullChar, Slots(j, fields, d))
  }

  /** `bytes(item)`: the UTF-8 encoding of the packed text. */
  function PackBytes(j: Json, fields: seq<Field>, d: Dict): seq<Utf8.Byte>
  {
    Utf8.Encode(Pack(j, fields, d))
  }

  /** No value's `str` holds `c`. */
  predicate Separable(d: Dict, c: char)
  {
    forall k :: 0 <= k < |d| ==> c !in Str(d[k].1)
  }

  /** The field every well-formed class list has: `extra`, declared once, as JSON. */
  predicate WellDeclared(fields: seq<Field>)
  {
    ExtraField in fields && DistinctNames(fields)
  }

  lemma StrNonEmpty(v: Value)
    requires Truthy(v)
    ensures Str(v) != ""
  {
    if v.IntV? {
      assert Digits(if v.i < 0 then -v.i else v.i) != [];
    }
  }

  /** The value `pack` writes into the slot of field `i`. */
  lemma PayloadAt(fields: seq<Field>, d: Dict, i: int)
    requires WellDeclared(fields) && DistinctKeys(d)
    requires 0 <= i < |fields|
    ensures fields[i].name == ExtraName ==>
              fields[i] == ExtraField && Get(PackPayload(fields, d), ExtraName, StrV("")) == DictV(Extras(fields, d))
    ensures fields[i].name != ExtraName ==>
              Get(PackPayload(fields, d), fields[i].name, StrV("")) == Get(Kept(d), fields[i].name, StrV(""))
  {
    AssignLookup(Kept(d), ExtraName, DictV(Extras(fields, d)), fields[i].name);
    if fields[i].name == ExtraName {
      var x :| 0 <= x < |fields| && fields[x] == ExtraField;
      assert fields[x].name == fields[i].name;
    }
  }

  /**
   * The slot `pack` writes for field `i`: '' for a value that is absent or
   * falsy, the JSON text for a truthy JSON field, `str` of the value
   * otherwise.
   */
  lemma SlotOfField(j: Json, fields: seq<Field>, d: Dict, i: int)
    requires WellDeclared(fields) && DistinctKeys(d)
    requires 0 <= i < |fields| && fields[i].name != ExtraName
    ensures var v := Lookup(d, fields[i].name);
            Slots(j, fields, d)[i] ==
              if v.None? || !Truthy(v.value) then ""
              else if fields[i].tp == "json" then j.dumps(v.value)
              else Str(v.value)
  {
    PayloadAt(fields, d, i);
    KeptLookup(d, fields[i].name);
    TypeOfDeclared(fields, i);
  }

  /** The `extra` slot is '' when no undeclared values were paired, else their JSON text. */
  lemma SlotOfExtra(j: Json, fields: seq<Field>, d: Dict, i: int)
    requires WellDeclared(fields) && DistinctKeys(d)
    requires 0 <= i < |fields| && fields[i].name == ExtraName
    ensures Slots(j, fields, d)[i] == if Extras(fields, d) == [] then "" else j.dumps(DictV(Extras(fields, d)))
  {
    PayloadAt(fields, d, i);
    TypeOfDeclared(fields, i);
  }

  /** No slot holds the separator `c` when no value's text does. */
  lemma SlotsAvoid(j: Json, fields: seq<Field>, d: Dict, c: char)
    requires Lawful(j) && c < ' '
    requires WellDeclared(fields) && DistinctKeys(d) && Separable(d, c)
    ensures forall i :: 0 <= i < |fields| ==> c !in Slots(j, fields, d)[i]
  {
    forall i | 0 <= i < |fields|
      ensures c !in Slots(j, fields, d)[i]
    {
      if fields[i].name == ExtraName {
        SlotOfExtra(j, fields, d, i);
        LawfulDumpsPrintable(j, DictV(Extras(fields, d)), c);
      } else {
        SlotOfField(j, fields, d, i);
        var v := Lookup(d, fields[i].name);
        if v.Some? {
          LawfulDumpsPrintable(j, v.value, c);
          var k :| 0 <= k < |d| && d[k] == (fields[i].name, v.value);
        }
      }
    }
  }

  /**
   * `pack` yields one slot per declared field, in declaration order, when
   * no value's text holds '\x01'.
   */
  lemma PackSplits(j: Json, fields: seq<Field>, d: Dict)
    requires Lawful(j) && WellDeclared(fields) && DistinctKeys(d) && Separable(d, NullChar)
    ensures Split(Pack(j, fields, d), NullChar) == Slots(j, fields, d)
    ensures |Split(Pack(j, fields, d), NullChar)| == |fields|
  {
    SlotsAvoid(j, fields, d, NullChar);
    SplitJoin(Slots(j, fields, d), NullChar);
  }

  /** The packed text holds a character below the space only where a value's text does, or as '\x01'. */
  lemma PackAvoids(j: Json, fields: seq<Field>, d: Dict, c: char)
    requires Lawful(j) && c < ' ' && c != NullChar
    requires WellDeclared(fields) && DistinctKeys(d) && Separable(d, c)
    ensures c !in Pack(j, fields, d)
  {
    SlotsAvoid(j, fields, d, c);
    JoinAvoids(Slots(j, fields, d), c);
  }

  lemma {:induction false} JoinAvoids(parts: seq<string>, c: char)
    requires c != NullChar
    requires forall i :: 0 <= i < |parts| ==> c !in parts[i]
    ensures c !in Join(NullChar, parts)
  {
    if |parts| > 1 {
      assert forall i :: 0 <= i < |parts[1..]| ==> parts[1..][i] == parts[i + 1];
      JoinAvoids(parts[1..], c);
    }
  }

  // ---------------------------------------------------------------- unpack

  /**
   * `_unpack` for one slot: an empty slot stays ''; otherwise the text is
   * converted by the field's type. A `float` slot keeps its text, as
   * floating point is not modelled.
   */
  function ConvertSlot(j: Json, tp: string, s: string): Result<Value, Exc>
  {
    if s == "" then Ok(StrV(""))
    else if tp == "json" then
      match j.loads(s)
      case Some(v) => Ok(v)
      case None => Err(ValueError)
    else if tp == "int" then
      match ParseInt(s)
      case Some(n) => Ok(IntV(n))
      case None => Err(ValueError)
    else if tp == "float" then Ok(StrV(s))
    else if tp == "bool" then Ok(BoolV(true))
    else Ok(StrV(s))
  }

  /**
   * `dict(map(_unpack, zip(keys, slots)))` before the dict is built: the
   * converted pairs, as many as the shorter list; surplus slots are
   * ignored; the first slot that fails raises.
   */
  function Converted(j: Json, fields: seq<Field>, keys: seq<string>, slots: seq<string>): (r: Result<Dict, Exc>)
    ensures r.Ok? ==> KeysOf(r.value) == keys[..if |keys| < |slots| then |keys| else |slots|]
    decreases |keys|
  {
    if keys == [] || slots == [] then Ok([])
    else
      var v :- ConvertSlot(j, TypeOf(fields, keys[0]), slots[0]);
      var rest :- Converted(j, fields, keys[1..], slots[1..]);
      var n := if |keys| < |slots| then |keys| else |slots|;
      assert keys[..n] == [keys[0]] + keys[1..][..n - 1];
      Ok([(keys[0], v)] + rest)
  }

  /** `if payload.get('extra')`: a truthy `extra` is popped, and merged when it is a dict. */
  function MergeExtra(d: Dict): Dict
  {
    var extra := Get(d, ExtraName, NoneV);
    if !Truthy(extra) then d
    else if extra.DictV? then UpdateDict(Remove(d, ExtraName), extra.entries)
    else Remove(d, ExtraName)
  }

  /** `Item.unpack(text)`. */
  function UnpackText(j: Json, fields: seq<Field>, text: string): Result<Dict, Exc>
  {
    var pairs :- Converted(j, fields, Names(fields), Split(text, NullChar));
    Ok(MergeExtra(UpdateDict([], pairs)))
  }

  /** `Item.unpack(payload)`: bytes are decoded as UTF-8 first. */
  function Unpack(j: Json, fields: seq<Field>, p: Utf8.Payload): Result<Dict, Exc>
  {
    match Utf8.AsText(p)
    case None => Err(UnicodeDecodeError)
    case Some(text) => UnpackText(j, fields, text)
  }

  /** An empty slot unpacks as '' whatever its type. */
  lemma EmptySlotStays(j: Json, tp: string)
    ensures ConvertSlot(j, tp, "") == Ok(StrV(""))
  {
  }

  /**
   * After the merge: a key of a truthy `extra` dict holds its value from
   * there, `extra` itself is gone, and every other key holds what it held.
   */
  lemma MergeExtraLookup(d: Dict, k: string)
    requires Truthy(Get(d, ExtraName, NoneV))
    requires Get(d, ExtraName, NoneV).DictV? ==> DistinctKeys(Get(d, ExtraName, NoneV).entries)
    ensures var extra := Get(d, ExtraName, NoneV);
            Lookup(MergeExtra(d), k) ==
              if extra.DictV? && k in KeysOf(extra.entries) then Lookup(extra.entries, k)
              else if k == ExtraName then None
              else Lookup(d, k)
  {
    var extra := Get(d, ExtraName, NoneV);
    RemoveLookup(d, ExtraName, k);
    if extra.DictV? {
      UpdateLookup(Remove(d, ExtraName), extra.entries, k);
    }
  }

  // ---------------------------------------------------------------- round trip

  /**
   * What a declared field holds after `unpack(pack(...))`: '' for a falsy
   * value; the JSON form of a JSON value; an int as it was; `True` for a
   * bool field; the `str` text otherwise (float included).
   */
  function Restored(tp: string, v: Value): Value
  {
    if !Truthy(v) then StrV("")
    else if tp == "json" then JsonForm(v)
    else if tp == "int" then v
    else if tp == "bool" then BoolV(true)
    else StrV(Str(v))
  }

  /** Every int field holds an int, when it holds something truthy. */
  predicate IntsTyped(fields: seq<Field>, d: Dict)
  {
    forall i, k :: 0 <= i < |fields| && 0 <= k < |d| && fields[i].tp == "int" && d[k].0 == fields[i].name && Truthy(d[k].1)
      ==> d[k].1.IntV?
  }

  /** Converting a packed slot back gives the value `Restored` names. */
  lemma SlotRoundTrip(j: Json, tp: string, v: Value)
    requires Lawful(j)
    requires tp == "int" && Truthy(v) ==> v.IntV?
    ensures ConvertSlot(j, tp, PackSlot(j, tp, v)) == Ok(Restored(tp, v))
  {
    if Truthy(v) {
      StrNonEmpty(v);
      if tp == "json" {
        assert j.dumps(v) != [];
        assert j.loads(j.dumps(v)) == Some(JsonForm(v));
      } else if tp == "int" {
        ParseDecimal(v.i);
      }
    }
  }

  /** The pairs `(keys[i], vals[i])`. */
  function Zip(keys: seq<string>, vals: seq<Value>): (r: Dict)
    requires |keys| == |vals|
    ensures |r| == |keys|
    ensures forall i :: 0 <= i < |r| ==> r[i] == (keys[i], vals[i])
  {
    if keys == [] then [] else [(keys[0], vals[0])] + Zip(keys[1..], vals[1..])
  }

  lemma {:induction false} ConvertedAll(j: Json, fields: seq<Field>, keys: seq<string>, slots: seq<string>, vals: seq<Value>)
    requires |keys| == |slots| == |vals|
    requires forall i :: 0 <= i < |keys| ==> ConvertSlot(j, TypeOf(fields, keys[i]), slots[i]) == Ok(vals[i])
    ensures Converted(j, fields, keys, slots) == Ok(Zip(keys, vals))
    decreases |keys|
  {
    if keys != [] {
      assert ConvertSlot(j, TypeOf(fields, keys[0]), slots[0]) == Ok(vals[0]);
      forall i | 0 <= i < |keys| - 1
        ensures ConvertSlot(j, TypeOf(fields, keys[1..][i]), slots[1..][i]) == Ok(vals[1..][i])
      {
        assert keys[1..][i] == keys[i + 1] && slots[1..][i] == slots[i + 1] && vals[1..][i] == vals[i + 1];
      }
      ConvertedAll(j, fields, keys[1..], slots[1..], vals[1..]);
    }
  }

  /** The dict `unpack` builds from a packed item, before `extra` is merged. */
  function Expected(fields: seq<Field>, d: Dict): Dict
  {
    var payload := PackPayload(fields, d);
    seq(|fields|, i requires 0 <= i < |fields| =>
      (fields[i].name, Restored(fields[i].tp, Get(payload, fields[i].name, StrV("")))))
  }

  /** The slot of field `i` converts back to its `Restored` value. */
  lemma SlotConverts(j: Json, fields: seq<Field>, d: Dict, i: int)
    requires Lawful(j) && WellDeclared(fields) && DistinctKeys(d) && IntsTyped(fields, d)
    requires 0 <= i < |fields|
    ensures ConvertSlot(j, TypeOf(fields, fields[i].name), Slots(j, fields, d)[i]) ==
              Ok(Restored(fields[i].tp, Get(PackPayload(fields, d), fields[i].name, StrV(""))))
  {
    TypeOfDeclared(fields, i);
    var v := Get(PackPayload(fields, d), fields[i].name, StrV(""));
    PayloadAt(fields, d, i);
    if fields[i].tp == "int" && Truthy(v) {
      KeptLookup(d, fields[i].name);
      var k :| 0 <= k < |d| && d[k] == (fields[i].name, v);
    }
    SlotRoundTrip(j, fields[i].tp, v);
  }

  /** `unpack(pack(d))` is the expected slots with `extra` merged. */
  lemma UnpackPack(j: Json, fields: seq<Field>, d: Dict)
    requires Lawful(j) && WellDeclared(fields) && DistinctKeys(d)
    requires Separable(d, NullChar) && IntsTyped(fields, d)
    ensures UnpackText(j, fields, Pack(j, fields, d)) == Ok(MergeExtra(UpdateDict([], Expected(fields, d))))
  {
    PackSplits(j, fields, d);
    SlotsConvert(j, fields, d);
  }

  /** The slots of `pack` convert back, field by field, to the expected pairs. */
  lemma SlotsConvert(j: Json, fields: seq<Field>, d: Dict)
    requires Lawful(j) && WellDeclared(fields) && DistinctKeys(d) && IntsTyped(fields, d)
    ensures Converted(j, fields, Names(fields), Slots(j, fields, d)) == Ok(Expected(fields, d))
  {
    var slots := Slots(j, fields, d);
    var keys := Names(fields);
    var payload := PackPayload(fields, d);
    var vals := seq(|fields|, i requires 0 <= i < |fields| => Restored(fields[i].tp, Get(payload, fields[i].name, StrV(""))));
    forall i | 0 <= i < |fields|
      ensures ConvertSlot(j, TypeOf(fields, keys[i]), slots[i]) == Ok(vals[i])
    {
      SlotConverts(j, fields, d, i);
    }
    ConvertedAll(j, fields, keys, slots, vals);
    assert Zip(keys, vals) == Expected(fields, d);
  }

  lemma ExpectedLookup(fields: seq<Field>, d: Dict, i: int)
    requires DistinctNames(fields)
    requires 0 <= i < |fields|
    ensures Lookup(UpdateDict([], Expected(fields, d)), fields[i].name) ==
              Some(Restored(fields[i].tp, Get(PackPayload(fields, d), fields[i].name, StrV(""))))
  {
    var e := Expected(fields, d);
    assert DistinctKeys(e);
    UpdateLookup([], e, fields[i].name);
    LookupAt(e, i);
  }

  lemma ExpectedAbsent(fields: seq<Field>, d: Dict, k: string)
    requires DistinctNames(fields)
    requires k !in Names(fields)
    ensures Lookup(UpdateDict([], Expected(fields, d)), k) == None
  {
    var e := Expected(fields, d);
    assert DistinctKeys(e);
    assert KeysOf(e) == Names(fields);
    UpdateLookup([], e, k);
  }

  /** The dict that `unpack(pack(d))` yields. */
  function Unpacked(fields: seq<Field>, d: Dict): Dict
  {
    MergeExtra(UpdateDict([], Expected(fields, d)))
  }

  /** The JSON form of the pairs stored in `extra`. */
  function ExtrasForm(p: Dict): (q: Dict)
    ensures KeysOf(q) == KeysOf(p)
  {
    seq(|p|, m requires 0 <= m < |p| => (p[m].0, JsonForm(p[m].1)))
  }

  /** The `extra` slot converts back to the JSON form of the paired dict, or '' when it is empty. */
  lemma ExtraSlotRestored(fields: seq<Field>, d: Dict)
    requires WellDeclared(fields) && DistinctKeys(d)
    ensures Get(UpdateDict([], Expected(fields, d)), ExtraName, NoneV) ==
              if Extras(fields, d) == [] then StrV("") else DictV(ExtrasForm(Extras(fields, d)))
  {
    var p := Extras(fields, d);
    var x :| 0 <= x < |fields| && fields[x] == ExtraField;
    PayloadAt(fields, d, x);
    ExpectedLookup(fields, d, x);
    assert Lookup(UpdateDict([], Expected(fields, d)), ExtraName) == Some(Restored("json", DictV(p)));
    assert JsonForm(DictV(p)) == DictV(ExtrasForm(p));
  }

  /** Before the merge, `extra` holds the JSON form of the pairs, or '' when there are none. */
  lemma ExtraBeforeMerge(fields: seq<Field>, d: Dict)
    requires WellDeclared(fields) && DistinctKeys(d)
    ensures Get(UpdateDict([], Expected(fields, d)), ExtraName, NoneV) ==
              if Extras(fields, d) == [] then StrV("") else DictV(ExtrasForm(Extras(fields, d)))
    ensures DistinctKeys(ExtrasForm(Extras(fields, d)))
    ensures forall m :: 0 <= m < |Extras(fields, d)| ==> Extras(fields, d)[m].0 !in Names(fields)
  {
    var p := Extras(fields, d);
    ExtraSlotRestored(fields, d);
    KeptDistinct(d);
    assert Distinct(KeysOf(Kept(d)));
    var ks := Undeclared(KeysOf(Kept(d)), Names(fields));
    UndeclaredDistinct(KeysOf(Kept(d)), Names(fields));
    PairingDistinct(ks, Kept(d));
    var q := ExtrasForm(p);
    assert DistinctKeys(q) by {
      forall m, n | 0 <= m < n < |q| ensures q[m].0 != q[n].0 {
        assert q[m].0 == p[m].0 && q[n].0 == p[n].0;
      }
    }
    forall m | 0 <= m < |p| ensures p[m].0 !in Names(fields) {
      assert p[m].0 == ks[2 * m];
    }
  }

  /** A declared field other than `extra` holds its `Restored` value after `unpack(pack(d))`. */
  lemma UnpackedDeclared(fields: seq<Field>, d: Dict, i: int)
    requires WellDeclared(fields) && DistinctKeys(d)
    requires 0 <= i < |fields| && fields[i].name != ExtraName
    ensures Lookup(Unpacked(fields, d), fields[i].name) == Some(Restored(fields[i].tp, Get(d, fields[i].name, StrV(""))))
  {
    ExtraBeforeMerge(fields, d);
    ExpectedLookup(fields, d, i);
    PayloadAt(fields, d, i);
    KeptLookup(d, fields[i].name);
    assert fields[i].name in Names(fields);
    if Extras(fields, d) != [] {
      MergeExtraLookup(UpdateDict([], Expected(fields, d)), fields[i].name);
    }
  }

  /** After `unpack(pack(d))`, `extra` holds '' when nothing was paired, and is gone otherwise. */
  lemma UnpackedExtra(fields: seq<Field>, d: Dict)
    requires WellDeclared(fields) && DistinctKeys(d)
    ensures Extras(fields, d) == [] ==> Lookup(Unpacked(fields, d), ExtraName) == Some(StrV(""))
    ensures Extras(fields, d) != [] ==> Lookup(Unpacked(fields, d), ExtraName) == None
  {
    var e := UpdateDict([], Expected(fields, d));
    ExtraBeforeMerge(fields, d);
    if Extras(fields, d) == [] {
      assert Get(e, ExtraName, NoneV) == StrV("");
      assert MergeExtra(e) == e;
    } else {
      MergeExtraLookup(e, ExtraName);
      assert ExtraName in Names(fields);
    }
  }

  /** Each pair `pack` put in `extra` is a top-level key after `unpack`, holding its value's JSON form. */
  lemma UnpackedPair(fields: seq<Field>, d: Dict, m: int)
    requires WellDeclared(fields) && DistinctKeys(d)
    requires 0 <= m < |Extras(fields, d)|
    ensures Lookup(Unpacked(fields, d), Extras(fields, d)[m].0) == Some(JsonForm(Extras(fields, d)[m].1))
  {
    ExtraBeforeMerge(fields, d);
    var p := Extras(fields, d);
    MergeExtraLookup(UpdateDict([], Expected(fields, d)), p[m].0);
    LookupAt(ExtrasForm(p), m);
  }

  /** A key neither declared nor paired is absent after `unpack(pack(d))`. */
  lemma UnpackedAbsent(fields: seq<Field>, d: Dict, k: string)
    requires WellDeclared(fields) && DistinctKeys(d)
    requires k !in Names(fields) && k !in KeysOf(Extras(fields, d))
    ensures Lookup(Unpacked(fields, d), k) == None
  {
    ExtraBeforeMerge(fields, d);
    ExpectedAbsent(fields, d, k);
    if Extras(fields, d) != [] {
      MergeExtraLookup(UpdateDict([], Expected(fields, d)), k);
    }
  }

  /** One undeclared truthy value pairs with nothing: `pack` loses it, and `extra` stays empty. */
  lemma SingleUndeclaredLost(fields: seq<Field>, d: Dict, k: string)
    requires Undeclared(KeysOf(Kept(d)), Names(fields)) == [k]
    ensures Extras(fields, d) == []
  {
  }

  // ---------------------------------------------------------------- dump_item, load_item

  /** An item as a value: its class's qualified name and field list, and its dict. */
  datatype Record = Record(className: string, fields: seq<Field>, dict: Dict)

  /** What `dump_item` may be handed: an item, or an object of some other class. */
  datatype Dumpable = ItemObject(record: Record) | OtherObject(className: string)

  /** `dump_item(obj)`: ItemError for a non-item, else class name, separator, packed text. */
  function DumpItem(j: Json, x: Dumpable): Result<string, Exc>
  {
    match x
    case OtherObject(_) => Err(ItemError)
    case ItemObject(rec) => Ok(rec.className + RecordSep + Pack(j, rec.fields, rec.dict))
  }

  /** `cls_name, data = string.split(NULL_CHAR)`: exactly two parts, else ValueError. */
  function LoadParts(s: string): Result<(string, string), Exc>
  {
    var parts := SplitStr(s, RecordSep);
    if |parts| != 2 then Err(ValueError) else Ok((parts[0], parts[1]))
  }

  /**
   * What the dynamic import finds under a module path and attribute: an
   * item class with its declared fields, another class, or nothing (the
   * import raises).
   */
  datatype Resolved = ItemClassFound(fields: seq<Field>) | OtherClassFound | NotImportable(error: Exc)

  /**
   * `load_item(s)`: split off the class name, import the class and build
   * an item from the packed text, which appends `extra` to the class's
   * fields, unpacks, and stores the stripped entries.
   */
  function LoadItem(j: Json, s: string, resolve: (string, string) -> Resolved): Result<Record, Exc>
  {
    var (className, data) :- LoadParts(s);
    var (path, attr) := Utils.SplitDotted(className);
    match resolve(path, attr)
    case NotImportable(e) => Err(e)
    case OtherClassFound => Err(ItemError)
    case ItemClassFound(declared) =>
      var fields := WithExtra(declared);
      var d :- UnpackText(j, fields, data);
      Ok(Record(className, fields, UpdateDict([], CleanAll(d))))
  }

  /** A dumped item splits back into its class name and packed text. */
  lemma LoadPartsOfDump(j: Json, rec: Record)
    requires RecordSep[0] !in rec.className
    requires RecordSep[0] !in Pack(j, rec.fields, rec.dict)
    ensures DumpItem(j, ItemObject(rec)).Ok?
    ensures LoadParts(DumpItem(j, ItemObject(rec)).value) == Ok((rec.className, Pack(j, rec.fields, rec.dict)))
  {
    SplitStrTwo(rec.className, RecordSep, Pack(j, rec.fields, rec.dict));
  }

  /** Text without the separator, such as a bare packed item, does not load: ValueError. */
  lemma LoadPartsWithoutSeparator(s: string)
    requires RecordSep[0] !in s
    ensures LoadParts(s) == Err(ValueError)
  {
    SplitStrNone(s, RecordSep);
  }

  /**
   * Loading a dumped item of a class whose fields already include `extra`
   * rebuilds an item of that class from the unpacked packed text.
   */
  lemma LoadDumpedItem(j: Json, rec: Record, resolve: (string, string) -> Resolved)
    requires Lawful(j) && WellDeclared(rec.fields) && DistinctKeys(rec.dict)
    requires Separable(rec.dict, NullChar) && Separable(rec.dict, RecordSep[0]) && IntsTyped(rec.fields, rec.dict)
    requires RecordSep[0] !in rec.className
    requires resolve(Utils.SplitDotted(rec.className).0, Utils.SplitDotted(rec.className).1) == ItemClassFound(rec.fields)
    ensures DumpItem(j, ItemObject(rec)).Ok?
    ensures UnpackText(j, rec.fields, Pack(j, rec.fields, rec.dict)).Ok?
    ensures LoadItem(j, DumpItem(j, ItemObject(rec)).value, resolve) ==
              Ok(Record(rec.className, rec.fields,
                        UpdateDict([], CleanAll(UnpackText(j, rec.fields, Pack(j, rec.fields, rec.dict)).value))))
  {
    PackAvoids(j, rec.fields, rec.dict, RecordSep[0]);
    LoadPartsOfDump(j, rec);
    UnpackPack(j, rec.fields, rec.dict);
  }

  // ---------------------------------------------------------------- the classes

  /** An item class: its qualified name and its class-level `_fields` list. */
  class ItemClass {
    const qualName: string
    var fields: seq<Field>

    constructor (qualName: string, fields: seq<Field>)
      ensures this.qualName == qualName && this.fields == fields
    {
      this.qualName := qualName;
      this.fields := fields;
    }

    /** `if self._extra_field not in self._fields: self._fields.append(...)`. */
    method AddExtra()
      modifies this
      ensures fields == WithExtra(old(fields))
    {
      if ExtraField !in fields {
        fields := fields + [ExtraField];
      }
    }
  }

  /** The payload of `Item(payload)`: a dict, or packed text or bytes. */
  datatype ItemPayload = FromDict(entries: Dict) | FromWire(wire: Utf8.Payload)

  /** The dict `__init__` hands to `update`: the given one, or the unpacked payload. */
  function InitialDict(j: Json, fields: seq<Field>, payload: ItemPayload): Result<Dict, Exc>
  {
    match payload
    case FromDict(e) => Ok(e)
    case FromWire(p) => Unpack(j, fields, p)
  }

  /** An item: an instance of an item class with its `__dict__`. */
  class Item {
    const cls: ItemClass
    var dict: Dict

    /** The item's dict is a dict, and every string in it is stripped. */
    ghost predicate Valid()
      reads this
    {
      DistinctKeys(dict) && AllClean(dict)
    }

    /** The item as a value. */
    function Snapshot(): Record
      reads this, cls
    {
      Record(cls.qualName, cls.fields, dict)
    }

    /** A fresh instance with an empty `__dict__`. */
    constructor Empty(cls: ItemClass)
      ensures this.cls == cls && dict == [] && Valid()
    {
      this.cls := cls;
      dict := [];
    }

    /** `item[k] = v`: a string is stripped first. */
    method SetItem(k: string, v: Value)
      requires Valid()
      modifies this
      ensures dict == Assign(old(dict), k, Clean(v))
      ensures Valid()
    {
      CleanIsClean(v);
      AssignKeepsClean(dict, k, Clean(v));
      AssignDistinct(dict, k, Clean(v));
      dict := Assign(dict, k, Clean(v));
    }

    /**
     * `item.update(e)`: the string values of the caller's `e` are stripped
     * in place (returned here as `cleaned`), then `e` is merged in.
     */
    method Update(e: Dict) returns (cleaned: Dict)
      requires Valid()
      modifies this
      ensures cleaned == CleanAll(e)
      ensures dict == UpdateDict(old(dict), cleaned)
      ensures Valid()
    {
      cleaned := e;
      var i := 0;
      while i < |e|
        invariant 0 <= i <= |e|
        invariant |cleaned| == |e|
        invariant forall k :: 0 <= k < i ==> cleaned[k] == (e[k].0, Clean(e[k].1))
        invariant forall k :: i <= k < |e| ==> cleaned[k] == e[k]
      {
        if e[i].1.StrV? {
          cleaned := cleaned[i := (e[i].0, StrV(Strip(e[i].1.s)))];
        }
        i := i + 1;
      }
      CleanAllClean(e);
      UpdateKeepsClean(dict, cleaned);
      UpdateDistinct(dict, cleaned);
      dict := UpdateDict(dict, cleaned);
    }

    /**
     * `cls(payload)`: the class gains `extra` if it lacked it; a packed
     * payload is unpacked (which may raise); the result is `update`d into
     * a fresh item.
     */
    static method New(cls: ItemClass, j: Json, payload: ItemPayload) returns (r: Result<Item, Exc>)
      modifies cls
      ensures cls.fields == WithExtra(old(cls.fields))
      ensures r.Ok? <==> InitialDict(j, cls.fields, payload).Ok?
      ensures r.Ok? ==> fresh(r.value) && r.value.cls == cls && r.value.Valid()
      ensures r.Ok? ==> r.value.dict == UpdateDict([], CleanAll(InitialDict(j, cls.fields, payload).value))
      ensures r.Err? ==> r.error == InitialDict(j, cls.fields, payload).error
    {
      cls.AddExtra();
      var d := InitialDict(j, cls.fields, payload);
      if d.Err? {
        return Err(d.error);
      }
      var item := new Item.Empty(cls);
      var _ := item.Update(d.value);
      r := Ok(item);
    }
  }
}
