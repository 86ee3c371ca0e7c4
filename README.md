# grapy crawler core, in Dafny

A model of the core of grapy, an asynchronous crawl engine. The model covers:

- **Request wire format.** `BaseRequest`, and the older `Request` in `grapy/core/request.py`.
  - Eight fields in a fixed order, joined by `'\x01'`.
  - A value in the shared default list is written as `''`.
  - `callback_args` and `kwargs` are JSON; every other field is `str()`.
- **Item wire format** (`Item.pack` / `unpack`, `dump_item` / `load_item`).
  - One slot per declared field, plus the JSON `extra` bucket for undeclared keys.
  - `dump_item` prefixes the class name and `"\x02\x00\x00"`.
- **Engine.**
  - The spider registry.
  - The middleware and pipeline folds.
  - The recursive flattening of callback output into request and item pushes.
  - The rules by which `push_req` and `push_item` swallow or log exceptions.
  - Seeding, which clears `unique`.
  - `process`, which emits one event and re-raises.
- **Base scheduler.**
  - Its delegation to the engine.
  - The two concrete schedulers:
    - the worker pool, which re-pushes a failed request with `unique` cleared;
    - the periodic scheduler, with a bounded submit-retry loop that settles each job with `done()` or `sched_later(count + 10, 1)`.
- **Response classification.**
  - The two stock middlewares, on status and content type.
  - The status and content-type decision inside the legacy `request()`.
- **Plugin loader.**
  - The `{'name:order': arguments}` parsing of `import_pipelines` and its stable sort by order.
  - The dotted-name split of `import_module`.

Python values are the datatype `Py.Value` (None, bool, int, str, list, tuple, and a dict with string keys in insertion order). A dict is a sequence of pairs (`Dicts.Dict`).

JSON is an abstract pair `Py.Json(dumps, loads)`. The predicate `Py.Lawful` states what the codecs rely on:

- `loads(dumps(v))` is the JSON form of `v`, in which a tuple becomes a list;
- `dumps` never yields an empty text;
- `dumps` never yields a control character.

Text is `seq<char>`. Bytes are `Utf8.Byte`, with an explicit UTF-8 encoder and decoder.

The model follows the program's own structure:

- Immutable values are datatypes and functions.
- Objects whose fields the code assigns are classes: `BaseRequest.Request`, `LegacyRequest.Request`, `Item.ItemClass`, `Item.Item`, `Engine.Engine`, `BaseSched.BaseScheduler`, `Sched.Scheduler`, `Sched.PeriodicScheduler`, `Sched.Worker`, `Sched.Job`.
- Loops in the code (the `build` setattr loop, `process_middleware`, `process_item`, flattening, seeding, the retry loop, `import_pipelines`) are methods with loop invariants. Each is proved against a specification function whose properties are proved as lemmas.

Oracles stand in for what the engine cannot see:

- The scheduler, as the engine sees it, is `Engine.SchedPort`: what `push_req` and `push_item` raise.
- The engine's observable behaviour is the effect trace `Engine.Engine.trace`. It records:
  - requests and items handed to the scheduler;
  - exceptions logged;
  - the event `process` emits.
- The fetch is a parameter `fetch: Req -> Result<Response, Exc>`.
- A spider's callbacks are a map from name to function.
- The dynamic import is a parameter `resolve`, which says what a dotted name imports.

The model follows what the code does, including where that differs from what a reader might expect of a crawler:

- Undeclared item keys do not round-trip losslessly. `other_keys` at `grapy/core/item.py:88-89` is one iterator consumed by both `zip` and `map`, so keys pair with the value of the next key, and an odd last key is lost.
- A request payload with the wrong field count is not rejected outright:
  - surplus slots are ignored;
  - five to seven slots are accepted;
  - fewer than five slots raise KeyError at `grapy/core/base_request.py:61`. With exactly four slots, a malformed `callback_args` slot raises ValueError first.
- `PeriodicScheduler.submit_req` calls `sched_later` for every exception except IgnoreRequest, not only for RetryRequest. A workload that fails to build propagates without touching the job.
- The item wire format is `<class name> "\x02\x00\x00" <'\x01'-joined slots>`, not a JSON object.
- There is no dedup filter in the code this model covers; a `before_push_request` middleware stands for it.

## Model

| member | source | states |
|---|---|---|
| BaseRequest.Index | grapy/core/base_request.py:9-10 | each packed key has one wire position below 8, and that position holds the key: the order of `_keys` |
| BaseRequest.FieldsDetermine | grapy/core/base_request.py:17-19 | a request is determined by its eight packed fields together with `unique` and `request_time`: two requests agreeing on these are equal |
| BaseRequest.WithField | grapy/core/base_request.py:78-79 | `setattr` of a packed field changes that field only; every other field, `unique` and `request_time` are unchanged |
| BaseRequest.StripFragmentNoMatch | grapy/core/base_request.py:23 | a url in which no '#' is followed by a character other than a newline is left unchanged |
| BaseRequest.StripFragmentLeavesNoMatch | grapy/core/base_request.py:23 | after the substitution, the pattern `#.+` matches nowhere in the url |
| BaseRequest.StripFragmentIdempotent | grapy/core/base_request.py:23 | stripping the fragment twice is stripping it once |
| BaseRequest.StripFragmentSingleLine | grapy/core/base_request.py:23 | a single-line url is cut at its first '#' that is not its last character, and is unchanged when there is none |
| BaseRequest.Slots | grapy/core/base_request.py:39-48 | exactly 8 slots; the slot at each key's position is '' for a default value, the JSON text for `callback_args`/`kwargs`, else the `str()` of the field |
| BaseRequest.SplitOfPack | grapy/core/base_request.py:49-57 | when no plain field's text holds '\x01', splitting the pack at '\x01' gives back exactly the eight slots |
| BaseRequest.Restore | grapy/core/base_request.py:76-79 | after the loop has seen the first n keys, a field is the payload's value when that key is among them and truthy, else the field's previous value |
| BaseRequest.RestoreStep | grapy/core/base_request.py:76-79 | one more turn of the `build` loop sets the next key exactly when its payload value is truthy |
| BaseRequest.UnpackOfPack | grapy/core/base_request.py:51-64 | unpacking the pack of a request whose plain fields hold no '\x01' succeeds with all 8 keys; JSON slots load to the value's JSON form ('' for a default), other keys hold their slot text |
| BaseRequest.BuildOfPack | grapy/core/base_request.py:69-80 | `build(pack(r))` succeeds and gives each field back: JSON form of truthy JSON fields, `str()` text of other non-default fields, defaults of `Request('')` for default or empty ones; `unique` true, `request_time` 0 |
| BaseRequest.BuildOfBytes | grapy/core/base_request.py:55-56 | building from the UTF-8 bytes of a text is building from the text |
| BaseRequest.BuildShortPayload | grapy/core/base_request.py:57-62 | a payload with fewer than four fields lacks the `callback_args` slot: `build` raises KeyError |
| BaseRequest.BuildFourFields | grapy/core/base_request.py:60-62 | with exactly four fields, an invalid JSON `callback_args` slot raises ValueError, otherwise the missing `kwargs` slot raises KeyError |
| BaseRequest.BuildKeepsText | grapy/core/base_request.py:39-80 | a plain field holding a non-empty, non-default string survives `build(pack(r))` unchanged |
| BaseRequest.BuildStringifiesInt | grapy/core/base_request.py:46-47 | a plain field holding an int (such as `req_id`, `group`) comes back as its decimal string |
| BaseRequest.BuildDefaultsToBlank | grapy/core/base_request.py:41-45 | a field holding a default value comes back as the value `Request('')` has there, whichever field it is |
| BaseRequest.BuildLoadsJson | grapy/core/base_request.py:42-43 | a truthy JSON field comes back as its JSON form, or as the blank default when it is in the default list |
| BaseRequest.Request.constructor | grapy/core/base_request.py:21-33 | a new request has the url without its fragment, the given method, callback, arguments and kwargs, spider 'default', `unique` true, `req_id`, `group` and `request_time` 0 |
| BaseRequest.Request.SetAttr | grapy/core/base_request.py:79 | the object's state becomes the request with that one field set |
| BaseRequest.Request.SetFields | grapy/core/base_request.py:76-79 | after the loop, the state is the old state with every truthy payload key set |
| BaseRequest.Request.Build | grapy/core/base_request.py:69-80 | a fresh request with the truthy unpacked fields set, or the exception unpacking raised |
| LegacyRequest.LegacyRefusesText | grapy/core/request.py:59-63 | the legacy `unpack` refuses a text payload with TypeError, where the base class builds the text as it builds its UTF-8 bytes |
| LegacyRequest.LegacyAgreesOnBytes | grapy/core/request.py:59-87 | on any bytes payload the legacy and the base `build` succeed or fail together, with the same fields or the same exception; `ref` is 0 |
| LegacyRequest.LegacyRoundTrip | grapy/core/request.py:43-87 | building from the legacy `pack()` bytes succeeds and gives each field back as the base round trip does, `unique` true and `ref` 0 |
| LegacyRequest.Request.constructor | grapy/core/request.py:29-41 | the url loses its fragment; spider 'default', `unique` true, `req_id`, `ref` and `group` 0 |
| LegacyRequest.Request.SetAttr | grapy/core/request.py:86 | one packed field set, the rest and `ref` unchanged |
| LegacyRequest.Request.SetFields | grapy/core/request.py:83-86 | every truthy payload key set, `ref` unchanged |
| LegacyRequest.Request.Build | grapy/core/request.py:76-87 | a fresh plain `Request` with the truthy unpacked fields set, or the exception unpacking raised |
| LegacyRequest.FetchedRules | grapy/core/request.py:110-148 | a response comes back exactly for an aiohttp answer with status 200 whose content type names a marker, carrying that status, type and url; a failed answer raises what the status and type decision says; an interrupted read always ends in TypeError, because the fallback passes `requests.get` the `connector` keyword that every call carries (lines 102-107, 130); the other transport failures raise IgnoreRequest |
| LegacyRequest.ClassifyVersusMiddlewares | grapy/core/request.py:115-126 | the legacy decision agrees with the stock middleware chain on 200 and on every status from 300 up; below 300 it retries every status but 200, where the chain never retries |
| Py.ParseDecimal | grapy/core/item.py:125-126 | `int(str(i)) == i` for every integer |
| Py.ParseUnderscore | grapy/utils.py:38 | `int()` accepts one underscore between two runs of digits and ignores it: `int(a + '_' + b) == int(a + b)` |
| Py.SkipUnderscore | grapy/core/item.py:126 | the number a run of digits denotes is unchanged by an underscore inserted anywhere in it |
| Py.StripStart | grapy/core/item.py:37 | removes exactly the leading whitespace: what it drops is space, and what is left does not start with space |
| Py.StripEnd | grapy/core/item.py:37 | removes exactly the trailing whitespace |
| Py.Strip | grapy/core/item.py:37 | the result neither starts nor ends with whitespace |
| Py.StripNoSpace | grapy/core/item.py:37 | a string without surrounding whitespace is unchanged |
| Py.StripIdempotent | grapy/core/item.py:37 | stripping twice is stripping once |
| Py.StripRemovesOnlySpace | grapy/core/item.py:37 | the stripped string is a contiguous slice of the original |
| Py.JsonFormTruthy | grapy/core/base_request.py:61-62 | a loaded JSON value is truthy exactly when the value dumped was |
| Py.JsonFormIdempotent | grapy/core/base_request.py:43 | dumping and loading a loaded value gives it back unchanged |
| Py.LawfulDumpsPrintable | grapy/core/base_request.py:43 | JSON text holds no control character, so never the separator |
| Dicts.Lookup | grapy/core/item.py:58-60 | a key is found exactly when it is present, and then with its stored value |
| Dicts.Assign | grapy/core/item.py:38 | assignment keeps the key order and appends a new key last |
| Dicts.AssignLookup | grapy/core/item.py:38 | after `d[k] = v`, `k` finds `v` and every other key what it found before |
| Dicts.RemoveLookup | grapy/core/item.py:136 | after `pop(k)`, `k` is absent and every other key finds what it found before |
| Dicts.Remove | grapy/core/item.py:136 | `pop(k)` keeps only entries of the dict, none of them under `k`, and keeps keys distinct |
| Dicts.UpdateLookup | grapy/core/item.py:73 | after `d.update(e)`, a key of `e` finds its value in `e`, any other key what it found in `d` |
| Dicts.UpdateDistinct | grapy/core/item.py:73 | `d.update(e)` keeps the keys of a dict distinct |
| Utf8.DecodeEncode | grapy/core/base_request.py:66-67 | decoding the UTF-8 bytes of a text gives the text back |
| Utf8.EncodeAppend | grapy/core/base_request.py:66-67 | the encoding of a concatenation is the concatenation of the encodings |
| Text.Find | grapy/utils.py:35 | `str.find`: -1 exactly when the character is absent, else the index of its first occurrence |
| Text.RFind | grapy/utils.py:14 | `str.rfind`: -1 exactly when the character is absent, else the index of its last occurrence |
| Text.Split | grapy/core/base_request.py:57 | `str.split(sep)` yields one more part than there are separators, none holding the separator |
| Text.SplitJoin | grapy/core/base_request.py:49-57 | splitting the join of parts that hold no separator gives the parts back |
| Text.JoinSplit | grapy/core/base_request.py:49-57 | joining the split of a text gives the text back |
| Text.SplitStrTwo | grapy/core/item.py:160-165 | a text with the separator once between two separator-free parts splits into exactly those two parts |
| Text.SplitStrNone | grapy/core/item.py:165 | a text without the separator splits into itself alone |
| Item.WithExtra | grapy/core/item.py:22-23 | after construction the class fields include `extra`, extend the old list by at most one entry, and hold `extra` once when it was absent |
| Item.WithExtraIdempotent | grapy/core/item.py:22-23 | constructing a second item of the class does not append `extra` again |
| Item.CleanIsClean | grapy/core/item.py:34-38 | a value stored through `item[k] = v` has no surrounding whitespace when a string, and is stored unchanged otherwise |
| Item.AssignKeepsClean | grapy/core/item.py:34-38 | assigning a stripped value keeps every string of the item stripped |
| Item.UpdateKeepsClean | grapy/core/item.py:62-73 | `update` with stripped values keeps every string of the item stripped |
| Item.Kept | grapy/core/item.py:85-86 | the dict after the falsy values are popped holds only truthy entries of the item |
| Item.KeptLookup | grapy/core/item.py:85-86 | after the pops, a key finds its value exactly when that value is truthy |
| Item.Pairing | grapy/core/item.py:88-89 | the `extra` dict pairs the m-th undeclared key with the value of the key after it: half as many entries as keys, an odd last key lost |
| Item.SingleUndeclaredLost | grapy/core/item.py:88-89 | a single undeclared truthy value is dropped: `extra` stays empty |
| Item.SlotOfField | grapy/core/item.py:93-104 | a declared field's slot is '' when absent or falsy, its JSON text when JSON-typed, else its `str()` text |
| Item.SlotOfExtra | grapy/core/item.py:91-104 | the `extra` slot is '' when nothing was paired, else the JSON text of the paired dict |
| Item.PackSplits | grapy/core/item.py:105 | when no value's text holds '\x01', the packed text splits into one slot per declared field, in declaration order |
| Item.PackAvoids | grapy/core/item.py:93-105 | the packed text holds a control character other than '\x01' only where a value's text does |
| Item.Converted | grapy/core/item.py:118-133 | the converted pairs are keyed by the declared names, as many as the shorter of names and slots: surplus slots are ignored |
| Item.SlotRoundTrip | grapy/core/item.py:93-131 | converting a packed slot back gives '' for falsy, the JSON form for JSON, the int for int, `True` for bool, else the text |
| Item.MergeExtraLookup | grapy/core/item.py:135-138 | after the merge a key of a truthy `extra` dict holds its value from there, `extra` is gone, other keys unchanged |
| Item.UnpackPack | grapy/core/item.py:78-140 | `unpack(pack(d))` succeeds and is the restored slots with `extra` merged |
| Item.UnpackedDeclared | grapy/core/item.py:78-140 | a declared field other than `extra` comes back as its restored value |
| Item.UnpackedExtra | grapy/core/item.py:135-138 | `extra` comes back '' when nothing was paired, and is absent otherwise |
| Item.UnpackedPair | grapy/core/item.py:88-138 | each pair in `extra` is a top-level key after `unpack`, holding its value's JSON form |
| Item.UnpackedAbsent | grapy/core/item.py:78-140 | a key neither declared nor paired is absent after `unpack(pack(d))` |
| Item.LoadPartsOfDump | grapy/core/item.py:153-165 | a dumped item splits back into its class name and its packed text |
| Item.LoadPartsWithoutSeparator | grapy/core/item.py:165 | a text without the separator, such as a bare packed item, does not load: ValueError |
| Item.LoadDumpedItem | grapy/core/item.py:153-170 | loading a dumped item whose class resolves to its own fields yields an item of that class holding the unpacked packed fields, stripped |
| Item.ItemClass.AddExtra | grapy/core/item.py:22-23 | the class field list becomes `WithExtra` of the old one |
| Item.Item.SetItem | grapy/core/item.py:34-38 | the dict gets `k` set to the stripped value; the item stays a dict of stripped strings |
| Item.Item.Update | grapy/core/item.py:62-73 | the caller's dict has its strings stripped in place, then is merged into the item; the item stays a dict of stripped strings |
| Item.Item.New | grapy/core/item.py:20-28 | the class gains `extra`; the item holds the stripped given or unpacked dict, or construction fails with the unpacking's exception |
| Engine.ChainAppend | grapy/core/engine.py:114-125 | running two hook lists is running the first, then the second on its result; an exception ends the chain |
| Engine.ChainAbsent | grapy/core/engine.py:114-125 | with no middleware having the hook, the object comes back unchanged |
| Engine.ChainHalts | grapy/core/engine.py:114-125 | a hook that raises on the object it is given ends the chain with its exception, whatever follows |
| Engine.ChainAdopts | grapy/core/engine.py:118-123 | a hook's result replaces the object only when it is not None |
| Engine.ItemOutcomeHalts | grapy/core/engine.py:127-141 | a stage that raises (a DropItem, say) halts the pipeline: later stages do not matter |
| Engine.ItemOutcomeSkipsInert | grapy/core/engine.py:131-136 | a stage that is neither a processor nor a function is passed over |
| Engine.PushReqSpec | grapy/core/engine.py:193-200 | `push_req` never logs IgnoreRequest; when the middlewares pass, it hands the scheduler their result once and logs at most the scheduler's non-ignore exception; a middleware exception hands nothing over |
| Engine.PushItemSpec | grapy/core/engine.py:202-208 | `push_item` never logs DropItem or ItemError; it hands the scheduler the item once and logs at most any other exception |
| Engine.FlattenAppend | grapy/core/engine.py:177-191 | flattening outputs concatenates their leaves in order, and stops at the first incomplete one |
| Engine.FlattenNested | grapy/core/engine.py:177-179 | a nested list contributes its leaves where it stands |
| Engine.FlattenCompleteIff | grapy/core/engine.py:150-181 | a callback's output is pushed in full exactly when no value of unknown type occurs anywhere in it |
| Engine.FlattenOutCompleteIff | grapy/core/engine.py:150-181 | one output is pushed in full exactly when it holds no value of unknown type |
| Engine.AdoptSpec | grapy/core/engine.py:155-159 | a pushed request's spider is filled only when None and keeps any spider it had; adopting twice is adopting once |
| Engine.GetSpider | grapy/core/engine.py:45-50 | the spider registered under the name, exactly when one is; otherwise EngineError 'Spider[name] is not found' |
| Engine.Register | grapy/core/engine.py:27-28 | `spiders[name] = spider`: an existing name keeps its place, a new name is appended |
| Engine.RegisterGet | grapy/core/engine.py:40 | after registering, the name finds the new spider and every other name what it found before |
| Engine.RegisterDistinct | grapy/core/engine.py:24-31 | registering keeps the registry free of duplicate names |
| Engine.AddedGet | grapy/core/engine.py:37-40 | appending a new name finds the new spider under it and leaves every other lookup as it was |
| Engine.FoundAfterAdd | grapy/core/engine.py:33-35 | registering the next spider keeps every earlier one found, and finds it too |
| Engine.Unregister | grapy/core/engine.py:42-43 | after the pop, a name is registered exactly when it was and is not the popped one |
| Engine.UnregisterGet | grapy/core/engine.py:42-43 | after the pop, the name is not found and every other name finds what it did |
| Engine.UnregisterDistinct | grapy/core/engine.py:42-43 | popping keeps the registry free of duplicate names |
| Engine.ListOf | grapy/core/engine.py:146 | `list(callback_args)`: a list or tuple's items; a string's characters, each as a one-character string, in order; a dict's keys in insertion order; TypeError for None, bools and ints |
| Engine.DefaultParseRaises | grapy/core/engine.py:143-148 | a response for a spider whose `parse` is the default pushes nothing and raises NotImplementedError |
| Engine.SeedsNotUnique | grapy/core/engine.py:212-215 | absent push middlewares, every seed a spider hands the scheduler carries that spider's name and is not unique |
| Engine.StartNotUnique | grapy/core/engine.py:210-223 | absent push middlewares, no request `start_request` hands the scheduler is unique |
| Engine.Engine.constructor | grapy/core/engine.py:17-22 | no pipelines, spiders, middlewares or scheduler |
| Engine.Engine.AddSpider | grapy/core/engine.py:37-40 | EngineError 'Spider[name] is already exists' exactly when the name is registered; otherwise exactly that entry is added |
| Engine.Engine.AddSpiders | grapy/core/engine.py:33-40 | on success the registry is the old one followed by every spider under its name, in order; otherwise the spiders before the first one already registered were added, that one's name is registered, and the error names it |
| Engine.Engine.SetSpiders | grapy/core/engine.py:24-31 | the old registry is dropped; a dict gives exactly the registry `Fill` builds from its entries and never fails; a list gives exactly what `add_spiders` gives from an empty registry; every name given is found afterwards |
| Engine.FillLast | grapy/core/engine.py:27-28 | after a dict's entries are assigned in turn, a name finds the spider of the last entry that gives it |
| Engine.FillUnnamed | grapy/core/engine.py:27-28 | a name no entry gives finds what it found before |
| Engine.FillDistinct | grapy/core/engine.py:27-28 | assigning a dict's entries in turn keeps the registry free of duplicate names |
| Engine.Engine.RemoveSpider | grapy/core/engine.py:42-43 | KeyError exactly when the name is not registered, else the entry is removed |
| Engine.Engine.SetPipelines | grapy/core/engine.py:52-53 | the pipelines are replaced, nothing else changes |
| Engine.Engine.SetMiddlewares | grapy/core/engine.py:55-56 | the middlewares are replaced, nothing else changes |
| Engine.Engine.SetSched | grapy/core/engine.py:58-59 | the engine's scheduler is set, nothing else changes |
| Engine.Engine.RunChain | grapy/core/engine.py:114-125 | the loop of `process_middleware` computes the fold `Chain` |
| Engine.Engine.ProcessItem | grapy/core/engine.py:127-141 | the given pipelines, or the engine's own when none are given, folded over the item; the result is what they raise |
| Engine.Engine.PushReq | grapy/core/engine.py:193-200 | the trace grows by exactly the effects of `push_req`; nothing else changes |
| Engine.Engine.PushItem | grapy/core/engine.py:202-208 | the trace grows by exactly the effects of `push_item`; nothing else changes |
| Engine.Engine.ProcessOut | grapy/core/engine.py:150-181 | one output pushes its flattened leaves in order; EngineError 'Unknow type' exactly when it holds a value of unknown type |
| Engine.Engine.ProcessOuts | grapy/core/engine.py:177-191 | a list of outputs pushes its leaves in order up to the first value of unknown type, which raises |
| Engine.Engine.ProcessResponse | grapy/core/engine.py:143-191 | `process_response` as the run `ResponseRun` describes: spider lookup, callback by name, pushes of the flattened output, then the callback's exception |
| Engine.Engine.ProcessRequest | grapy/core/engine.py:93-112 | `_process`: before-request chain, fetch, response bound to the request, after-request chain, `process_response`; the first exception ends it |
| Engine.Engine.Process | grapy/core/engine.py:71-91 | `process` emits one event with the request's spider and the exception `_process` raised, then re-raises exactly that exception |
| Engine.Engine.PushSeeds | grapy/core/engine.py:222-223 | one spider's seeds pushed in order, each with the spider's name and `unique` false |
| Engine.Engine.StartRequest | grapy/core/engine.py:210-223 | every seed of every registered spider, in registry order |
| BaseSched.BaseScheduler.constructor | grapy/core/base_sched.py:8-11 | no engine, not running |
| BaseSched.BaseScheduler.Attach | grapy/core/engine.py:58-60 | the engine takes the scheduler and the scheduler the engine; nothing else of the engine changes |
| BaseSched.BaseScheduler.PushReq | grapy/core/base_sched.py:13-17 | always raises NotImplementedError |
| BaseSched.BaseScheduler.SubmitItem | grapy/core/base_sched.py:25-26 | what the engine's pipelines raise on the item; AttributeError without an engine |
| BaseSched.BaseScheduler.PushItem | grapy/core/base_sched.py:19-20 | the same as `submit_item` |
| BaseSched.BaseScheduler.SubmitReq | grapy/core/base_sched.py:22-23 | the engine processes the request and its exception is raised; AttributeError without an engine |
| BaseSpider.Spider.constructor | grapy/core/base_spider.py:6-24 | a truthy class-level name wins over the argument (None by default); the default seeds are none; `parse` defaults to the raising one |
| Middlewares.StatusRules | grapy/middleware.py:7-11 | 4xx raises IgnoreRequest; other statuses from 300 raise RetryRequest; below 300 the hook returns None and the chain keeps the response |
| Middlewares.AcceptedExtend | grapy/middleware.py:15-17 | a content type naming a marker passes whatever surrounds it |
| Middlewares.MarkersLower | grapy/middleware.py:16 | every marker of the pattern is a lower-case ASCII word |
| Middlewares.AcceptedIgnoresCase | grapy/middleware.py:15-17 | for every content type, upper- or lower-casing it never changes whether the check passes it |
| Middlewares.MarkerInAnyCase | grapy/middleware.py:15-17 | any content type holding a marker spelt in any mix of cases, anywhere, passes |
| Middlewares.UnmarkedRejected | grapy/middleware.py:15-17 | every content type holding no marker's first letter in either case raises IgnoreRequest |
| Middlewares.ImageRejected | grapy/middleware.py:15-17 | `image/png` names no marker and raises IgnoreRequest |
| Text.ContainsFoldRecase | grapy/middleware.py:16 | `re.I` matching of a lower-case word: recasing the text searched never changes whether the word occurs |
| Text.ContainsCaseVariant | grapy/middleware.py:16 | a lower-case word spelt in any mix of cases is found wherever it stands |
| Middlewares.StockChain | grapy/middleware.py:7-17 | the two hooks in a chain: 4xx ignored, other statuses from 300 retried, below 300 ignored unless the content type names a marker; a passing response is unchanged |
| Utils.SplitDotted | grapy/utils.py:14-16 | a dotted name is the module path, '.', and a dot-free attribute; without a dot the attribute is the whole name |
| Utils.SplitDottedJoin | grapy/utils.py:14-16 | a dotted name splits back into the path and attribute it was made of |
| Utils.EntryWithoutOrder | grapy/utils.py:35-39 | a key without ':' is the name itself, with order 0 |
| Utils.EntryWithOrder | grapy/utils.py:35-39 | `name:i` parses back to the name and the order `i` |
| Utils.EntryBadOrder | grapy/utils.py:38 | an order that `int()` refuses raises ValueError: anything but optional whitespace, an optional sign and ASCII digits with single underscores between them |
| Utils.MapAllSpec | grapy/utils.py:32-54 | the loop succeeds exactly when every entry does, with each entry's result at its place |
| Utils.ParseAllSpec | grapy/utils.py:32-54 | the entries parse exactly when each does, one result per entry in input order |
| Utils.InsertSorted | grapy/utils.py:56 | inserting into a sorted list keeps it sorted |
| Utils.InsertPermutes | grapy/utils.py:56 | inserting adds exactly the one entry |
| Utils.InsertStable | grapy/utils.py:56 | the inserted entry goes before every entry of equal order |
| Utils.SortByOrderSpec | grapy/utils.py:56 | the sort is ascending by order, a permutation, and stable |
| Utils.ImportPipelines | grapy/utils.py:19-58 | every entry parsed in dictionary order then stably sorted by order, or the first exception; each entry's arguments are those `Utils.Arguments` picks by the value's type (lines 40-52) |
| Utils.ParseEach | grapy/utils.py:32-54 | the loop over the entries computes `MapAll`: the first failure ends it |
| Sched.Scheduler.constructor | grapy/sched.py:17-19 | a base scheduler with no engine, a pool of the given size, no pending task |
| Sched.Scheduler.Attach | grapy/core/engine.py:58-60 | the engine takes this pool as its scheduler |
| Sched.Scheduler.PushReq | grapy/sched.py:21-22 | exactly one task is spawned for the request; nothing is raised |
| Sched.Scheduler.PushItem | grapy/core/base_sched.py:19-20 | inherited: what the engine's pipelines raise |
| Sched.Scheduler.RunTask | grapy/sched.py:24-35 | the oldest task runs: the engine processes its request, each request it hands over is spawned, then it is re-pushed not unique unless it succeeded or was ignored (at most once, `Sched.Requeued`), and exactly the exceptions other than IgnoreRequest and RetryRequest are logged (`Sched.Complaint`) |
| Sched.RequeueKeepsWire | grapy/sched.py:30-34 | clearing `unique` before the re-push changes nothing on the wire: the requeued request packs to the same text |
| Sched.Scheduler.Execute | grapy/sched.py:26 | the engine processes the request; each hand-off is spawned in order; what processing raised is returned |
| Sched.Worker.AddFunc | grapy/sched.py:101 | the worker serves one more function name |
| Sched.Worker.SubmitJob | grapy/sched.py:49 | the job is accepted exactly when the submit does not raise |
| Sched.Job.Done | grapy/sched.py:66 | one more `done()` |
| Sched.Job.SchedLater | grapy/sched.py:61 | one more `sched_later(delay, count)` with those arguments |
| Sched.FirstAccepted | grapy/sched.py:46-52 | the first attempt below the retry count that the worker accepts, every earlier one having failed |
| Sched.FirstAcceptedAt | grapy/sched.py:46-52 | an attempt accepted after failures only is the first accepted one |
| Sched.Attempts | grapy/sched.py:46-52 | at most the retry count, and one past the accepted attempt when there is one |
| Sched.AttemptsBounded | grapy/sched.py:46-52 | never more attempts than the retry count; a job is submitted exactly when some attempt is accepted, and the last attempt made is the accepted one unless all ran out |
| Sched.WrittenItemJobFails | grapy/sched.py:68-91 | as written, no item job loads: TypeError on the bytes, ValueError on the decoded text |
| Sched.ItemJobRoundTrip | grapy/sched.py:88-91 | with the dumped item as workload, the job loads back to the item pushed, from bytes or text alike |
| Sched.PeriodicScheduler.constructor | grapy/core/base_sched.py:8-11 | no engine, not running, no worker |
| Sched.PeriodicScheduler.Attach | grapy/core/engine.py:58-60 | the engine takes this scheduler |
| Sched.PeriodicScheduler.Init | grapy/sched.py:93-103 | the worker and retry count are kept; the worker serves `submit_req` and `submit_item` exactly when their flags are set |
| Sched.PeriodicScheduler.Submit | grapy/sched.py:46-52 | the retry loop: the job is submitted at the first accepted attempt and at no other; the failures of the earlier attempts are logged in order (`Sched.FailedBefore`); attempt i, for every attempt made, first pauses i hundredths of a second (`Sched.Ramp`) |
| Sched.PeriodicScheduler.PushReq | grapy/sched.py:43-52 | the job 'submit_req' under the hash key with workload `bytes(req)`, retried as above; never raises once initialised |
| Sched.PeriodicScheduler.PushItem | grapy/sched.py:68-86 | the job 'submit_item' scheduled at the attempt's clock reading plus `later` when that is an int, a bool counting as 0 or 1, and plus nothing otherwise (`Sched.Later`, lines 75-78), retried as above; the workload is the corrected one of the finding below (the UTF-8 of `dump_item(item)`), not `bytes(item)` as line 70 has it |
| Sched.WorkloadHeader | grapy/sched.py:70 | the corrected workload is the written `bytes(item)` behind the UTF-8 class-name header and separator |
| Sched.PeriodicScheduler.SubmitReq | grapy/sched.py:54-66 | the request is rebuilt (its failure propagates untouched); after processing, `done()` once on success or IgnoreRequest, else `sched_later(count + 10, 1)` and never `done()`, other exceptions logged |
| Sched.PeriodicScheduler.SubmitItem | grapy/sched.py:88-91 | the item is loaded and run through the pipelines; `done()` exactly when both return normally; the loading is the corrected one of the finding below, which decodes a bytes workload before `load_item`, where line 89 passes it raw |

## Source functions

The functions below model source functions directly. Each one only computes, so the members in the third column state its properties. A name without a module prefix is in the function's own module.

| function | source | specified by |
|---|---|---|
| BaseRequest.StripFragment | grapy/core/base_request.py:23 | StripFragmentNoMatch, StripFragmentLeavesNoMatch, StripFragmentIdempotent, StripFragmentSingleLine |
| BaseRequest.Pack | grapy/core/base_request.py:35-49 | Slots, SplitOfPack, UnpackOfPack, BuildOfPack |
| BaseRequest.UnpackText | grapy/core/base_request.py:57-64 | UnpackOfPack, BuildShortPayload, BuildFourFields |
| BaseRequest.Unpack | grapy/core/base_request.py:51-64 | BuildOfBytes, UnpackOfPack |
| BaseRequest.BuildValue | grapy/core/base_request.py:69-80 | BuildOfPack, BuildKeepsText, BuildStringifiesInt, BuildDefaultsToBlank, BuildLoadsJson, Request.Build |
| Item.PackSlot | grapy/core/item.py:93-104 | SlotOfField, SlotOfExtra, SlotRoundTrip |
| Item.Pack | grapy/core/item.py:78-105 | PackSplits, PackAvoids, UnpackPack |
| Item.ConvertSlot | grapy/core/item.py:118-131 | SlotRoundTrip, Converted |
| Item.MergeExtra | grapy/core/item.py:135-138 | MergeExtraLookup, UnpackedExtra, UnpackedPair |
| Item.UnpackText | grapy/core/item.py:112-140 | UnpackPack, UnpackedDeclared, UnpackedExtra, UnpackedPair, UnpackedAbsent |
| Item.Unpack | grapy/core/item.py:107-110 | LoadDumpedItem, Item.New |
| Item.DumpItem | grapy/core/item.py:153-161 | LoadPartsOfDump, LoadDumpedItem |
| Item.LoadParts | grapy/core/item.py:165 | LoadPartsOfDump, LoadPartsWithoutSeparator |
| Item.LoadItem | grapy/core/item.py:163-170 | LoadDumpedItem, Sched.ItemJobRoundTrip |
| LegacyRequest.LegacyUnpack | grapy/core/request.py:59-74 | LegacyRefusesText, LegacyAgreesOnBytes |
| LegacyRequest.Classify | grapy/core/request.py:115-126 | ClassifyVersusMiddlewares, FetchedRules |
| LegacyRequest.Fetched | grapy/core/request.py:110-148 | FetchedRules |
| Engine.Chain | grapy/core/engine.py:114-125 | ChainAppend, ChainAbsent, ChainHalts, ChainAdopts, Engine.RunChain |
| Engine.ItemOutcome | grapy/core/engine.py:127-141 | ItemOutcomeHalts, ItemOutcomeSkipsInert, Engine.ProcessItem, PushItemSpec |
| Engine.FlattenAll | grapy/core/engine.py:177-191 | FlattenAppend, FlattenNested, FlattenCompleteIff, Engine.ProcessOuts |
| Engine.ResponseRun | grapy/core/engine.py:143-191 | DefaultParseRaises, Engine.ProcessResponse |
| Engine.Adopt | grapy/core/engine.py:155-159 | AdoptSpec, SeedsNotUnique |
| Engine.Fill | grapy/core/engine.py:27-28 | FillLast, FillUnnamed, FillDistinct, Engine.SetSpiders |
| Engine.Named | grapy/core/engine.py:33-35 | Engine.AddSpiders, Engine.SetSpiders |
| Middlewares.CheckResponseStatus | grapy/middleware.py:7-11 | StatusRules, StockChain |
| Middlewares.AcceptedType | grapy/middleware.py:16 | AcceptedExtend, AcceptedIgnoresCase, MarkerInAnyCase, UnmarkedRejected |
| Middlewares.CheckResponseContentType | grapy/middleware.py:15-17 | AcceptedIgnoresCase, UnmarkedRejected, ImageRejected, StockChain |
| Utils.Arguments | grapy/utils.py:40-52 | EntryWithoutOrder, EntryWithOrder, ImportPipelines |
| Utils.ParseEntry | grapy/utils.py:35-52 | EntryWithoutOrder, EntryWithOrder, EntryBadOrder |
| Utils.MapAll | grapy/utils.py:32-54 | MapAllSpec, ParseEach |
| Utils.ParseAll | grapy/utils.py:32-54 | ParseAllSpec, ImportPipelines |
| Utils.Insert | grapy/utils.py:56 | InsertSorted, InsertPermutes, InsertStable |
| Utils.SortByOrder | grapy/utils.py:56 | SortByOrderSpec, ImportPipelines |
| Sched.Requeued | grapy/sched.py:27-34 | Scheduler.RunTask, RequeueKeepsWire |
| Sched.Complaint | grapy/sched.py:32-35 | Scheduler.RunTask |
| Sched.FailedBefore | grapy/sched.py:51-52 | PeriodicScheduler.Submit |
| Sched.Ramp | grapy/sched.py:47 | PeriodicScheduler.Submit |
| Sched.Later | grapy/sched.py:76-78 | LaterRules, PeriodicScheduler.PushItem |
| Sched.SchedAt | grapy/sched.py:75-83 | PeriodicScheduler.PushItem |
| Sched.ItemWorkload | grapy/sched.py:70 | WorkloadHeader, ItemJobRoundTrip, PeriodicScheduler.PushItem |
| Sched.JobItem | grapy/sched.py:89 | ItemJobRoundTrip, PeriodicScheduler.SubmitItem |
| Sched.WrittenItemWorkload | grapy/sched.py:70 | WrittenItemJobFails, WorkloadHeader |
| Sched.WrittenJobItem | grapy/sched.py:89 | WrittenItemJobFails |
| Sched.PoolPort | grapy/sched.py:21-22 | Scheduler.PushReq, Scheduler.PushItem |
| Sched.PeriodicPort | grapy/sched.py:43-86 | PeriodicScheduler.PushReq, PeriodicScheduler.PushItem |
| BaseSched.BasePort | grapy/core/base_sched.py:13-20 | BaseScheduler.PushReq, BaseScheduler.PushItem |
| Py.ParseInt | grapy/utils.py:38 | ParseDecimal, ParseUnderscore, Utils.EntryBadOrder |
| Py.Str | grapy/core/base_request.py:46-47 | BaseRequest.BuildStringifiesInt, BaseRequest.BuildKeepsText, BaseRequest.Slots |
| Py.Repr | grapy/core/base_request.py:47 | none; see `Py.Repr` under "Left out" |

## Left out

- Network and browser I/O (`grapy/request.py`, `grapy/playwright_request.py`, the transport of `grapy/core/request.py:97-111,127-148`): the fetch is the parameter `fetch`, and the legacy `request()` is modelled from the point where the transport has answered or failed (`LegacyRequest.Transport`). Exceptions of aiohttp other than the four it catches are not modelled.
- `grapy/response.py` is not part of this model. A response is its url, status, content type and request; the body, decoding and selection are foreign libraries.
- Concurrency. The pool is a first-in first-out queue of pending tasks run one at a time by `RunTask`; `join`, the pool size bound and `asyncio.Lock` are not modelled.
- Timing and telemetry. `time()` is the parameter `now` and sleeps are recorded as pauses. The `events` lists, `emit`, `add_event` and the flush after 100 events are not modelled. `process` records one `ProcessEvent` with spider and exception, without elapsed time.
- Dynamic import and dispatch. `importlib` is the parameter `resolve`, and `getattr(spider, callback)` is the spider's callback map. `import_pipelines` yields the specification of each object rather than creating it.
- `get_hash` is a parameter `key`; `Item.unique` (a fresh uuid) is not modelled.
- Floats. A `float` item slot keeps its text.
- Py.ParseInt: only the ASCII digits are digits. Python's `int()` also accepts every other Unicode decimal digit, such as Arabic-Indic or full-width digits.
- Utils.EntryBadOrder: an order written with non-ASCII decimal digits is refused by the model and accepted by Python, as for `Py.ParseInt`; `Item.ConvertSlot` (`grapy/core/item.py:126`) reads `int` slots the same way.
- Requests are values, so the aliasing of a request object shared between engine and scheduler is not modelled. Not modelled either: `req.engine`, the `ref` set on pushed requests at `grapy/core/engine.py:160`, and hooks' side effects.
- Python's `True == 1` key equality is not modelled. Item and JSON dict keys are strings; the spider registry (`Engine.Registry`) is keyed by `Py.Value`, where `True` and `1` are distinct names.
- Py.Repr: the `str()` of a list, tuple or dict uses single quotes around every string and escapes nothing. Python switches to double quotes for a string holding `'` and escapes backslashes, quotes and unprintable characters such as '\x01'. The packed text of a non-JSON field holding a container therefore differs from Python's whenever such a string occurs in it, and `Item.Separable` and `BaseRequest.SeparatorFree` reject some values whose Python text would hold no separator.
- Engine.Engine.ProcessOut: `item.ref = rsp.url` at `grapy/core/engine.py:160` raises AttributeError for a plain `BaseRequest`, whose `__slots__` (`grapy/core/base_request.py:17-19`) has no `ref`. The model pushes every request, and does not capture that failure.
- The accessors `keys`, `values`, `items`, `pop`, `get`, `copy`, `__getitem__` and `__str__` of an item are plain dictionary access, with `pop` as `Dicts.Remove`.
- Engine.Engine.ProcessResponse: a callback is a function returning its outputs and its exception. The laziness of a generator (pushes interleaved with the callback's own work) and a non-iterable returned by a plain callback are not modelled.
- Sched.PeriodicScheduler.SubmitReq: the requests the engine hands the periodic scheduler while processing a job reach the worker only through `PushReq`, which is not chained here; the trace records them.
- Sched.PeriodicScheduler.PushItem: `later` is read from the item's dict only, not from a class attribute. The method submits the corrected workload `ItemWorkload` of the finding below, not `bytes(item)` as `grapy/sched.py:70` has it; `Sched.WrittenItemWorkload` is the as-written one.
- Sched.PeriodicScheduler.SubmitItem: loads through the corrected `JobItem` of the finding below, which decodes a bytes workload before `load_item`; as written (`grapy/sched.py:89`, `Sched.WrittenJobItem`) every item job fails.
- Sched.Worker: the periodic worker library is external. Only the function names it serves and the jobs it accepted are recorded.
- Sched.PeriodicScheduler.Attach: installs `Sched.PeriodicPort`, whose pushes never raise, as the engine's view of the scheduler. In Python a push before `init` raises AttributeError, as the missing `_retry_count` is read at `grapy/sched.py:46` and `:71`. The methods `PushReq` and `PushItem` return that error, but the engine's port does not.
- Sched.Scheduler.Valid: the model requires that once attached, the engine's scheduler is this pool. The ports `PoolPort` and `PeriodicPort` say what a push raises, not which instance received it.
- BaseSpider.Spider.constructor: a `start_request` that raises, or that returns a coroutine, is not modelled. The seeds are a list.
- Engine.Engine.SetSpiders: a dict given twice the same name keeps one entry, as Python's dict does, in the place of its first occurrence.
- LegacyRequest.Request.Build: `cls` is ignored, as the code always builds a plain `Request`.
- LegacyRequest.Fetched: the response url is the transport's final url; the `urljoin(url, rsp.url)` of `grapy/core/request.py:121` and `:136` is not modelled.
- The dedup filter and SHA-256 keys appear in no file of this model.

## Findings

| source | as written | input that shows it | evidently intended | confidence | as-written member | corrected member |
|---|---|---|---|---|---|---|
| grapy/sched.py:68-91 | `push_item` submits `bytes(item)`, the bare packed fields without a class name; `submit_item` hands the workload to `load_item`, which splits it at "\x02\x00\x00" (a text separator on bytes raises TypeError) and expects a class name before it (decoded, the text has no separator, so unpacking `cls_name, data` raises ValueError) | any item, e.g. one of class `app.items.Page` with fields `[extra]` and an empty dict | the workload is `dump_item(item)`, and `submit_item` decodes it before `load_item`, so the job loads the item back | not executed | Sched.WrittenItemJobFails | Sched.ItemJobRoundTrip |
