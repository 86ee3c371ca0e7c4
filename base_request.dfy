/**
 * The crawl request and its wire format (grapy/core/base_request.py).
 *
 * A request is packed as its eight wire fields joined by '\x01'; a field
 * holding one of the "default" values is written as the empty string, the
 * two JSON fields are written with `json.dumps`, every other field with
 * `str()`. `build` reverses this, keeping the defaults of a fresh request
 * for every empty or falsy slot.
 */
module BaseRequest {
  import opened Wrappers
  import opened Py
  import opened Text
  import opened Exceptions
  import Dicts
  import Utf8

  /** The separator between packed fields. */
  const NullChar: char := '\U{0001}'

  /** The packed fields, in wire order. */
  datatype Key = Url | Method | Callback | CallbackArgs | Kwargs | Spider | ReqId | Group

  const Keys: seq<Key> := [Url, Method, Callback, CallbackArgs, Kwargs, Spider, ReqId, Group]
  const AllKeys: set<Key> := {Url, Method, Callback, CallbackArgs, Kwargs, Spider, ReqId, Group}

  /** The position of a key on the wire. */
  function Index(k: Key): (i: nat)
    ensures i < |Keys| && Keys[i] == k
  {
    match k
    case Url => 0
    case Method => 1
    case Callback => 2
    case CallbackArgs => 3
    case Kwargs => 4
    case Spider => 5
    case ReqId => 6
    case Group => 7
  }

  predicate IsJsonKey(k: Key)
  {
    k == CallbackArgs || k == Kwargs
  }

  /** Membership in `[{}, (), 'get', None, [], 'default']`: values packed as the empty string. */
  predicate IsDefault(v: Value)
  {
    v == DictV([]) || v == TupleV([]) || v == StrV("get") || v == NoneV || v == ListV([])
    || v == StrV("default")
  }

  /** The state of a request. `unique` and `requestTime` are never packed. */
  datatype Req = Req(
    url: Value,
    httpMethod: Value,
    callback: Value,
    callbackArgs: Value,
    kwargs: Value,
    spider: Value,
    unique: bool,
    reqId: Value,
    group: Value,
    requestTime: int)

  /** The request `Request('')` creates, on which `build` sets the packed fields. */
  const Blank: Req := Req(StrV(""), StrV("get"), StrV("parse"), ListV([]), DictV([]),
                          StrV("default"), true, IntV(0), IntV(0), 0)

  function Field(r: Req, k: Key): Value
  {
    match k
    case Url => r.url
    case Method => r.httpMethod
    case Callback => r.callback
    case CallbackArgs => r.callbackArgs
    case Kwargs => r.kwargs
    case Spider => r.spider
    case ReqId => r.reqId
    case Group => r.group
  }

  /** `setattr(r, k, v)` for a packed field. */
  function WithField(r: Req, k: Key, v: Value): (r': Req)
    ensures Field(r', k) == v
    ensures forall k2 :: k2 != k ==> Field(r', k2) == Field(r, k2)
    ensures r'.unique == r.unique && r'.requestTime == r.requestTime
  {
    match k
    case Url => r.(url := v)
    case Method => r.(httpMethod := v)
    case Callback => r.(callback := v)
    case CallbackArgs => r.(callbackArgs := v)
    case Kwargs => r.(kwargs := v)
    case Spider => r.(spider := v)
    case ReqId => r.(reqId := v)
    case Group => r.(group := v)
  }

  // ---------------------------------------------------------------- the url fragment

  /** The index of the first newline in `s`, or `|s|`. */
  function LineEnd(s: string): (i: nat)
    ensures i <= |s|
    ensures i < |s| ==> s[i] == '\n'
    ensures '\n' !in s[..i]
  {
    var k := Find(s, '\n');
    if k < 0 then |s| else k
  }

  /**
   * `re.sub('#.+', '', s)`: a '#' followed by at least one character
   * other than a newline starts a match, which runs to the end of its line
   * (`.` does not match a newline); every match is removed.
   */
  function StripFragment(s: string): (r: string)
    ensures |r| <= |s|
    decreases |s|
  {
    if s == [] then []
    else if s[0] == '#' && |s| >= 2 && s[1] != '\n' then
      assert s[..2] == [s[0], s[1]];
      StripFragment(s[LineEnd(s)..])
    else [s[0]] + StripFragment(s[1..])
  }

  /** Whether the pattern `#.+` matches somewhere in `s`. */
  predicate HasFragment(s: string)
  {
    exists i :: 0 <= i < |s| - 1 && s[i] == '#' && s[i + 1] != '\n'
  }

  /** A url in which the pattern does not match is left as it is. */
  lemma {:induction false} StripFragmentNoMatch(s: string)
    requires !HasFragment(s)
    ensures StripFragment(s) == s
    decreases |s|
  {
    if s != [] {
      assert !HasFragment(s[1..]) by {
        forall i | 0 <= i < |s[1..]| - 1 && s[1..][i] == '#'
          ensures s[1..][i + 1] == '\n'
        {
          assert s[i + 1] == '#';
        }
      }
      StripFragmentNoMatch(s[1..]);
      assert [s[0]] + s[1..] == s;
    }
  }

  lemma StripFragmentNewline(s: string)
    requires s != [] && s[0] == '\n'
    ensures StripFragment(s) != [] && StripFragment(s)[0] == '\n'
  {
  }

  /** After the substitution no match is left. */
  lemma {:induction false} StripFragmentLeavesNoMatch(s: string)
    ensures !HasFragment(StripFragment(s))
    decreases |s|
  {
    if s == [] {
    } else if s[0] == '#' && |s| >= 2 && s[1] != '\n' {
      assert s[..2] == [s[0], s[1]];
      StripFragmentLeavesNoMatch(s[LineEnd(s)..]);
    } else {
      var t := StripFragment(s[1..]);
      StripFragmentLeavesNoMatch(s[1..]);
      var r := [s[0]] + t;
      if s[0] == '#' && t != [] {
        assert s[1] == '\n';
        StripFragmentNewline(s[1..]);
      }
      forall i | 0 <= i < |r| - 1 && r[i] == '#'
        ensures r[i + 1] == '\n'
      {
        if i > 0 {
          assert t[i - 1] == '#';
        }
      }
    }
  }

  /** The substitution is idempotent. */
  lemma StripFragmentIdempotent(s: string)
    ensures StripFragment(StripFragment(s)) == StripFragment(s)
  {
    StripFragmentLeavesNoMatch(s);
    StripFragmentNoMatch(StripFragment(s));
  }

  /** Where the fragment of a single-line url starts: its first '#' that is not its last character. */
  function FragmentStart(s: string): int
  {
    var i := Find(s, '#');
    if 0 <= i < |s| - 1 then i else -1
  }

  /** On a single-line url the substitution cuts the url at its fragment. */
  lemma {:induction false} StripFragmentSingleLine(s: string)
    requires '\n' !in s
    ensures StripFragment(s) == if FragmentStart(s) < 0 then s else s[..FragmentStart(s)]
    decreases |s|
  {
    if s == [] {
    } else if s[0] == '#' {
      if |s| >= 2 {
        assert s[1] in s;
        assert LineEnd(s) == |s|;
        assert s[|s|..] == [];
      } else {
        assert s == [s[0]];
      }
    } else {
      assert '\n' !in s[1..] by {
        assert forall c :: c in s[1..] ==> c in s;
      }
      StripFragmentSingleLine(s[1..]);
      FragmentStartTail(s);
      assert StripFragment(s) == [s[0]] + StripFragment(s[1..]);
      assert [s[0]] + s[1..] == s;
      var i := FragmentStart(s[1..]);
      if 0 <= i {
        assert [s[0]] + s[1..][..i] == s[..i + 1];
      }
    }
  }

  /** Past a first character that is not '#', the fragment starts one place later than in the rest. */
  lemma FragmentStartTail(s: string)
    requires s != [] && s[0] != '#'
    ensures FragmentStart(s) == if FragmentStart(s[1..]) < 0 then -1 else FragmentStart(s[1..]) + 1
  {
    var i := Find(s[1..], '#');
    assert Find(s, '#') == if i < 0 then -1 else i + 1;
  }

  // ---------------------------------------------------------------- pack

  /** The text of one packed field (`_pack`). */
  function PackField(j: Json, k: Key, v: Value): string
  {
    if IsDefault(v) then ""
    else if IsJsonKey(k) then j.dumps(v)
    else Str(v)
  }

  /** The eight packed fields, in wire order. */
  function Slots(j: Json, r: Req): (slots: seq<string>)
    ensures |slots| == |Keys|
    ensures forall k :: slots[Index(k)] == PackField(j, k, Field(r, k))
  {
    seq(|Keys|, i requires 0 <= i < |Keys| => PackField(j, Keys[i], Field(r, Keys[i])))
  }

  /** `pack()`: the packed fields joined by the separator. */
  function Pack(j: Json, r: Req): string
  {
    Join(NullChar, Slots(j, r))
  }

  /** `bytes(r)`: the UTF-8 encoding of the pack. */
  function ToBytes(j: Json, r: Req): seq<Utf8.Byte>
  {
    Utf8.Encode(Pack(j, r))
  }

  // ---------------------------------------------------------------- unpack and build

  function PayloadText(p: Utf8.Payload): Result<string, Exc>
  {
    match Utf8.AsText(p)
    case Some(s) => Ok(s)
    case None => Err(UnicodeDecodeError)
  }

  /** A JSON slot after `unpack`: an empty slot stays empty, any other is `json.loads` of it. */
  function LoadSlot(j: Json, s: string): Result<Value, Exc>
  {
    if s == "" then Ok(StrV(""))
    else
      match j.loads(s)
      case Some(v) => Ok(v)
      case None => Err(ValueError)
  }

  /** `dict(zip(keys, slots))`: the first slots under the keys in wire order. */
  function Zip(slots: seq<string>): (m: map<Key, Value>)
    ensures forall k :: k in m <==> Index(k) < |slots|
    ensures forall k :: k in m ==> m[k] == StrV(slots[Index(k)])
  {
    map k | k in AllKeys && Index(k) < |slots| :: StrV(slots[Index(k)])
  }

  /**
   * `unpack(payload)`: the split payload zipped with the keys (extra slots
   * are dropped, missing ones are absent), then the JSON slots loaded in
   * order; a payload without both JSON slots is a KeyError.
   */
  function Unpack(j: Json, p: Utf8.Payload): (r: Result<map<Key, Value>, Exc>)
    ensures r.Ok? ==> CallbackArgs in r.value && Kwargs in r.value
  {
    var text :- PayloadText(p);
    UnpackText(j, text)
  }

  function UnpackText(j: Json, text: string): (r: Result<map<Key, Value>, Exc>)
    ensures r.Ok? ==> CallbackArgs in r.value && Kwargs in r.value
  {
    var slots := Split(text, NullChar);
    var raw := Zip(slots);
    if CallbackArgs !in raw then Err(KeyError)
    else
      var args :- LoadSlot(j, slots[Index(CallbackArgs)]);
      if Kwargs !in raw then Err(KeyError)
      else
        var kwargs :- LoadSlot(j, slots[Index(Kwargs)]);
        Ok(raw[CallbackArgs := args][Kwargs := kwargs])
  }

  /** Field `k` once the `build` loop has handled the first `n` keys. */
  function Pick(r: Req, m: map<Key, Value>, n: nat, k: Key): Value
  {
    if Index(k) < n && k in m && Truthy(m[k]) then m[k] else Field(r, k)
  }

  /**
   * The `build` loop after its first `n` keys: each of them whose payload
   * value is truthy has been set on `r`; nothing else has changed.
   */
  function Restore(r: Req, m: map<Key, Value>, n: nat): (r': Req)
    ensures forall k :: Field(r', k) == Pick(r, m, n, k)
  {
    Req(Pick(r, m, n, Url), Pick(r, m, n, Method), Pick(r, m, n, Callback),
        Pick(r, m, n, CallbackArgs), Pick(r, m, n, Kwargs), Pick(r, m, n, Spider),
        r.unique, Pick(r, m, n, ReqId), Pick(r, m, n, Group), r.requestTime)
  }

  /** `Request.build(payload)`, as a value. */
  function BuildValue(j: Json, p: Utf8.Payload): Result<Req, Exc>
  {
    var m :- Unpack(j, p);
    Ok(Restore(Blank, m, |Keys|))
  }

  /** One more turn of the loop sets the next key when its value is truthy. */
  lemma RestoreStep(r: Req, m: map<Key, Value>, i: nat)
    requires i < |Keys|
    ensures Restore(r, m, i + 1) ==
            if Keys[i] in m && Truthy(m[Keys[i]]) then WithField(Restore(r, m, i), Keys[i], m[Keys[i]])
            else Restore(r, m, i)
  {
    var k := Keys[i];
    assert Index(k) == i;
    var lhs := Restore(r, m, i + 1);
    var rhs := if k in m && Truthy(m[k]) then WithField(Restore(r, m, i), k, m[k]) else Restore(r, m, i);
    forall k2
      ensures Field(lhs, k2) == Field(rhs, k2)
    {
    }
    FieldsDetermine(lhs, rhs);
  }

  /** Before the loop has handled any key, nothing is set. */
  lemma RestoreZero(r: Req, m: map<Key, Value>)
    ensures Restore(r, m, 0) == r
  {
    FieldsDetermine(Restore(r, m, 0), r);
  }

  /** Two requests with the same packed fields, `unique` and `requestTime` are the same. */
  lemma FieldsDetermine(a: Req, b: Req)
    requires forall k :: Field(a, k) == Field(b, k)
    requires a.unique == b.unique && a.requestTime == b.requestTime
    ensures a == b
  {
    assert Field(a, Url) == Field(b, Url) && Field(a, Method) == Field(b, Method);
    assert Field(a, Callback) == Field(b, Callback) && Field(a, CallbackArgs) == Field(b, CallbackArgs);
    assert Field(a, Kwargs) == Field(b, Kwargs) && Field(a, Spider) == Field(b, Spider);
    assert Field(a, ReqId) == Field(b, ReqId) && Field(a, Group) == Field(b, Group);
  }

  /** What `build(pack(r))` holds in field `k`: the field's JSON form, its `str()` text, or the blank default. */
  function Rebuilt(j: Json, k: Key, v: Value): Value
  {
    if IsDefault(v) then Field(Blank, k)
    else if IsJsonKey(k) then (if Truthy(v) then JsonForm(v) else Field(Blank, k))
    else if Str(v) != "" then StrV(Str(v))
    else Field(Blank, k)
  }

  /** No plain field's text holds the separator. */
  predicate SeparatorFree(r: Req)
  {
    forall k :: !IsJsonKey(k) ==> NullChar !in Str(Field(r, k))
  }

  lemma SlotsSeparatorFree(j: Json, r: Req)
    requires Lawful(j) && SeparatorFree(r)
    ensures forall i :: 0 <= i < |Slots(j, r)| ==> NullChar !in Slots(j, r)[i]
  {
    forall i | 0 <= i < |Slots(j, r)|
      ensures NullChar !in Slots(j, r)[i]
    {
      var k := Keys[i];
      assert Index(k) == i;
      if IsJsonKey(k) && !IsDefault(Field(r, k)) {
        LawfulDumpsPrintable(j, Field(r, k), NullChar);
      }
    }
  }

  /** What `unpack(pack(r))` holds under `k`: the loaded JSON slot, or the slot's text. */
  function Unpacked(j: Json, k: Key, v: Value): Value
  {
    if IsJsonKey(k) then (if IsDefault(v) then StrV("") else JsonForm(v))
    else StrV(PackField(j, k, v))
  }

  /** The separator-free slots of `r` come back from splitting its pack. */
  lemma SplitOfPack(j: Json, r: Req)
    requires Lawful(j) && SeparatorFree(r)
    ensures Split(Pack(j, r), NullChar) == Slots(j, r)
  {
    SlotsSeparatorFree(j, r);
    SplitJoin(Slots(j, r), NullChar);
  }

  /** A JSON slot of the pack loads back to the field's JSON form; an empty one stays empty. */
  lemma LoadSlotOfPack(j: Json, k: Key, v: Value)
    requires Lawful(j) && IsJsonKey(k)
    ensures LoadSlot(j, PackField(j, k, v)) == Ok(Unpacked(j, k, v))
  {
  }

  /** Unpacking a text whose split is `slots`, with both JSON slots loading, gives those slots zipped and loaded. */
  lemma UnpackTextOfSlots(j: Json, text: string, slots: seq<string>, args: Value, kwargs: Value)
    requires Split(text, NullChar) == slots && |slots| == |Keys|
    requires LoadSlot(j, slots[Index(CallbackArgs)]) == Ok(args)
    requires LoadSlot(j, slots[Index(Kwargs)]) == Ok(kwargs)
    ensures UnpackText(j, text) == Ok(Zip(slots)[CallbackArgs := args][Kwargs := kwargs])
  {
  }

  /** Unpacking the pack of `r` gives every field's slot, with the JSON slots loaded. */
  lemma {:induction false} UnpackOfPack(j: Json, r: Req)
    requires Lawful(j) && SeparatorFree(r)
    ensures UnpackText(j, Pack(j, r)).Ok?
    ensures forall k :: k in UnpackText(j, Pack(j, r)).value
    ensures forall k :: UnpackText(j, Pack(j, r)).value[k] == Unpacked(j, k, Field(r, k))
  {
    var slots := Slots(j, r);
    SplitOfPack(j, r);
    var args, kwargs := Field(r, CallbackArgs), Field(r, Kwargs);
    LoadSlotOfPack(j, CallbackArgs, args);
    LoadSlotOfPack(j, Kwargs, kwargs);
    UnpackTextOfSlots(j, Pack(j, r), slots, Unpacked(j, CallbackArgs, args), Unpacked(j, Kwargs, kwargs));
    var z := Zip(slots);
    var m := z[CallbackArgs := Unpacked(j, CallbackArgs, args)][Kwargs := Unpacked(j, Kwargs, kwargs)];
    forall k
      ensures k in m && m[k] == Unpacked(j, k, Field(r, k))
    {
      LoadedSlot(j, r, k, z, m);
    }
  }

  /** Key `k` of the zipped slots of `r`, with the JSON slots loaded, is what `Unpacked` says. */
  lemma LoadedSlot(j: Json, r: Req, k: Key, z: map<Key, Value>, m: map<Key, Value>)
    requires z == Zip(Slots(j, r))
    requires m == z[CallbackArgs := Unpacked(j, CallbackArgs, Field(r, CallbackArgs))][Kwargs := Unpacked(j, Kwargs, Field(r, Kwargs))]
    ensures k in m && m[k] == Unpacked(j, k, Field(r, k))
  {
    if k != CallbackArgs && k != Kwargs {
      ZippedSlot(j, r, k);
      assert m[k] == z[k];
    }
  }

  /** Key `k` of the zipped slots of `r` holds the text of its packed field. */
  lemma ZippedSlot(j: Json, r: Req, k: Key)
    ensures k in Zip(Slots(j, r)) && Zip(Slots(j, r))[k] == StrV(PackField(j, k, Field(r, k)))
  {
    var slots := Slots(j, r);
    assert slots[Index(k)] == PackField(j, k, Field(r, k));
  }

  /**
   * The round trip of the wire format: building a request from the pack
   * of `r` succeeds, gives every packed field back as `Rebuilt` describes,
   * and leaves `unique` true and `requestTime` zero.
   */
  lemma {:induction false} BuildOfPack(j: Json, r: Req)
    requires Lawful(j) && SeparatorFree(r)
    ensures BuildValue(j, Utf8.TextPayload(Pack(j, r))).Ok?
    ensures forall k :: Field(BuildValue(j, Utf8.TextPayload(Pack(j, r))).value, k) == Rebuilt(j, k, Field(r, k))
    ensures BuildValue(j, Utf8.TextPayload(Pack(j, r))).value.unique
    ensures BuildValue(j, Utf8.TextPayload(Pack(j, r))).value.requestTime == 0
  {
    UnpackOfPack(j, r);
    var m := UnpackText(j, Pack(j, r)).value;
    var b := Restore(Blank, m, |Keys|);
    assert BuildValue(j, Utf8.TextPayload(Pack(j, r))) == Ok(b);
    forall k
      ensures Field(b, k) == Rebuilt(j, k, Field(r, k))
    {
      RebuiltField(j, r, m, k);
    }
  }

  lemma RebuiltField(j: Json, r: Req, m: map<Key, Value>, k: Key)
    requires k in m && m[k] == Unpacked(j, k, Field(r, k))
    ensures Pick(Blank, m, |Keys|, k) == Rebuilt(j, k, Field(r, k))
  {
    JsonFormTruthy(Field(r, k));
  }

  /** Building from the UTF-8 bytes of a text is building from the text. */
  lemma BuildOfBytes(j: Json, s: string)
    ensures BuildValue(j, Utf8.BytesPayload(Utf8.Encode(s))) == BuildValue(j, Utf8.TextPayload(s))
  {
    Utf8.DecodeEncode(s);
    assert PayloadText(Utf8.BytesPayload(Utf8.Encode(s))) == Ok(s);
  }

  /** A payload with fewer than four fields lacks both JSON slots: `build` raises KeyError. */
  lemma BuildShortPayload(j: Json, s: string)
    requires multiset(s)[NullChar] < 3
    ensures BuildValue(j, Utf8.TextPayload(s)) == Err(KeyError)
  {
    BuildOfText(j, s);
    assert CallbackArgs !in Zip(Split(s, NullChar));
  }

  /** A text payload is unpacked as it stands. */
  lemma BuildOfText(j: Json, s: string)
    ensures BuildValue(j, Utf8.TextPayload(s)) == match UnpackText(j, s) case Err(e) => Err(e) case Ok(m) => Ok(Restore(Blank, m, |Keys|))
  {
    assert PayloadText(Utf8.TextPayload(s)) == Ok(s);
  }

  /**
   * A payload with exactly four fields: the `callback_args` slot is
   * loaded first, so its JSON error wins over the missing `kwargs` slot.
   */
  lemma BuildFourFields(j: Json, s: string)
    requires multiset(s)[NullChar] == 3
    ensures var slot := Split(s, NullChar)[3];
      BuildValue(j, Utf8.TextPayload(s)) ==
        if slot != "" && j.loads(slot).None? then Err(ValueError) else Err(KeyError)
  {
    BuildOfText(j, s);
    var slots := Split(s, NullChar);
    UnpackFourSlots(j, s, slots);
    assert Index(CallbackArgs) == 3;
    if slots[3] != "" && j.loads(slots[3]).None? {
      assert LoadSlot(j, slots[3]) == Err(ValueError);
    } else {
      assert LoadSlot(j, slots[3]).Ok?;
    }
  }

  /** Four slots: the `callback_args` slot is loaded, then the missing `kwargs` slot raises KeyError. */
  lemma UnpackFourSlots(j: Json, text: string, slots: seq<string>)
    requires slots == Split(text, NullChar) && |slots| == 4
    ensures UnpackText(j, text) == match LoadSlot(j, slots[Index(CallbackArgs)]) case Err(e) => Err(e) case Ok(_) => Err(KeyError)
  {
    var raw := Zip(slots);
    assert CallbackArgs in raw && Kwargs !in raw;
  }

  /** A plain field holding a non-empty, non-default string survives the round trip. */
  lemma BuildKeepsText(j: Json, r: Req, k: Key)
    requires Lawful(j) && SeparatorFree(r)
    requires !IsJsonKey(k) && Field(r, k).StrV? && Field(r, k).s != "" && !IsDefault(Field(r, k))
    ensures BuildValue(j, Utf8.TextPayload(Pack(j, r))).Ok?
    ensures Field(BuildValue(j, Utf8.TextPayload(Pack(j, r))).value, k) == Field(r, k)
  {
    BuildOfPack(j, r);
    assert Str(Field(r, k)) == Field(r, k).s;
  }

  /** A plain field holding an int comes back as its decimal text (`req_id` and `group` become strings). */
  lemma BuildStringifiesInt(j: Json, r: Req, k: Key)
    requires Lawful(j) && SeparatorFree(r)
    requires !IsJsonKey(k) && Field(r, k).IntV?
    ensures BuildValue(j, Utf8.TextPayload(Pack(j, r))).Ok?
    ensures Field(BuildValue(j, Utf8.TextPayload(Pack(j, r))).value, k) == StrV(Decimal(Field(r, k).i))
  {
    BuildOfPack(j, r);
    DecimalNonEmpty(Field(r, k).i);
  }

  /**
   * A field holding a default value comes back as the blank request's
   * value: so a url equal to 'get' or 'default' comes back empty.
   */
  lemma BuildDefaultsToBlank(j: Json, r: Req, k: Key)
    requires Lawful(j) && SeparatorFree(r)
    requires IsDefault(Field(r, k))
    ensures BuildValue(j, Utf8.TextPayload(Pack(j, r))).Ok?
    ensures Field(BuildValue(j, Utf8.TextPayload(Pack(j, r))).value, k) == Field(Blank, k)
  {
    BuildOfPack(j, r);
  }

  /** A JSON field holding a truthy value comes back as its JSON form. */
  lemma BuildLoadsJson(j: Json, r: Req, k: Key)
    requires Lawful(j) && SeparatorFree(r)
    requires IsJsonKey(k) && Truthy(Field(r, k))
    ensures BuildValue(j, Utf8.TextPayload(Pack(j, r))).Ok?
    ensures Field(BuildValue(j, Utf8.TextPayload(Pack(j, r))).value, k) ==
            if IsDefault(Field(r, k)) then Field(Blank, k) else JsonForm(Field(r, k))
  {
    BuildOfPack(j, r);
  }

  lemma DecimalNonEmpty(i: int)
    ensures Str(IntV(i)) == Decimal(i) != ""
  {
  }

  // ---------------------------------------------------------------- the object

  /** A request object; `build` creates one and sets its packed fields one by one. */
  class Request {
    var url: Value
    var httpMethod: Value
    var callback: Value
    var callbackArgs: Value
    var kwargs: Value
    var spider: Value
    var unique: bool
    var reqId: Value
    var group: Value
    var requestTime: int

    function State(): Req
      reads this
    {
      Req(url, httpMethod, callback, callbackArgs, kwargs, spider, unique, reqId, group, requestTime)
    }

    /** `Request(url, method, callback, callback_args, **kwargs)`: the url loses its fragment. */
    constructor (url: string, httpMethod: Value := StrV("get"), callback: Value := StrV("parse"),
                 callbackArgs: Value := ListV([]), kwargs: Dicts.Dict := [])
      ensures State() == Req(StrV(StripFragment(url)), httpMethod, callback, callbackArgs, DictV(kwargs),
                             StrV("default"), true, IntV(0), IntV(0), 0)
    {
      this.url := StrV(StripFragment(url));
      this.httpMethod := httpMethod;
      this.callback := callback;
      this.callbackArgs := callbackArgs;
      this.kwargs := DictV(kwargs);
      this.spider := StrV("default");
      this.unique := true;
      this.reqId := IntV(0);
      this.group := IntV(0);
      this.requestTime := 0;
    }

    /** `setattr(self, k, v)` for a packed field. */
    method SetAttr(k: Key, v: Value)
      modifies this
      ensures State() == WithField(old(State()), k, v)
    {
      match k
      case Url => url := v;
      case Method => httpMethod := v;
      case Callback => callback := v;
      case CallbackArgs => callbackArgs := v;
      case Kwargs => kwargs := v;
      case Spider => spider := v;
      case ReqId => reqId := v;
      case Group => group := v;
    }

    /** The loop of `build`: each packed key, in wire order, set when its payload value is truthy. */
    method SetFields(m: map<Key, Value>)
      modifies this
      ensures State() == Restore(old(State()), m, |Keys|)
    {
      ghost var start := State();
      RestoreZero(start, m);
      var i := 0;
      while i < |Keys|
        invariant 0 <= i <= |Keys|
        invariant State() == Restore(start, m, i)
      {
        var k := Keys[i];
        RestoreStep(start, m, i);
        if k in m && Truthy(m[k]) {
          SetAttr(k, m[k]);
        }
        i := i + 1;
      }
    }

    /** `Request.build(payload)`: a fresh request with the payload's truthy fields set. */
    static method Build(j: Json, p: Utf8.Payload) returns (r: Result<Request, Exc>)
      ensures r.Ok? <==> BuildValue(j, p).Ok?
      ensures r.Ok? ==> fresh(r.value) && r.value.State() == BuildValue(j, p).value
      ensures r.Err? ==> r.error == BuildValue(j, p).error
    {
      var req := new Request("");
      assert req.State() == Blank;
      var payload := Unpack(j, p);
      if payload.Err? {
        return Err(payload.error);
      }
      req.SetFields(payload.value);
      return Ok(req);
    }
  }
}
