/**
 * The three persisted-state hooks and the two storage utilities. Each hook is
 * a state record (its in-memory value) threaded together with the browser
 * storage through pure transition functions; the clock is a parameter.
 */
module LocalStorage {
  import opened Wrappers
  import opened Json
  import opened BrowserStorage

  /** A storage together with the hook state that a transition produced. */
  datatype Step<S> = Step(storage: Storage, state: S)

  /** A setter's argument: a value, or a function of the current value (`value instanceof Function`). */
  datatype Update = Put(value: Value) | Modify(f: Value -> Value)

  function Resolve(u: Update, current: Value): Value {
    match u
    case Put(v) => v
    case Modify(f) => f(current)
  }

  // ---------------------------------------------------------------------------
  // useLocalStorage(key, initialValue)

  /**
   * The initial read: the parsed stored text, or `initial` when there is no
   * window, the storage throws, the key is missing or empty, or parsing throws.
   */
  function Load(st: Storage, key: string, initial: Value, c: Codec): (v: Value)
    ensures StoredText(st, key).None? ==> v == initial
    ensures StoredText(st, key).Some? && c.parse(StoredText(st, key).value).None? ==> v == initial
    ensures v != initial ==> StoredText(st, key).Some? && c.parse(st.items[key]) == Some(v)
    ensures StoredText(st, key).Some? && c.parse(st.items[key]).Some? ==> v == c.parse(st.items[key]).value
  {
    match StoredText(st, key)
    case None => initial
    case Some(text) => c.parse(text).GetOr(initial)
  }

  datatype Plain = Plain(key: string, memory: Value)

  function MountPlain(st: Storage, key: string, initial: Value, c: Codec): (h: Plain)
    ensures h == Plain(key, Load(st, key, initial, c))
  {
    Plain(key, Load(st, key, initial, c))
  }

  /**
   * `setValue`: memory takes the new value first; the write-through to storage
   * happens only with a window and is lost, not rolled back, when it throws.
   */
  function SetValue(st: Storage, h: Plain, u: Update, c: Codec): (r: Step<Plain>)
    ensures r.state == Plain(h.key, Resolve(u, h.memory))
    ensures Writable(st) ==> r.storage.items == st.items[h.key := c.stringify(r.state.memory)]
    ensures !Writable(st) ==> r.storage == st
    ensures forall k :: k != h.key ==> SameAt(st, r.storage, k)
  {
    var v := Resolve(u, h.memory);
    Step(SetItem(st, h.key, c.stringify(v)), Plain(h.key, v))
  }

  /** Round trip: a later mount under the same key reads back what `setValue` stored. */
  lemma SetValueThenMount(st: Storage, h: Plain, u: Update, initial: Value, c: Codec)
    requires Lawful(c) && Writable(st)
    requires Serializable(Resolve(u, h.memory))
    ensures MountPlain(SetValue(st, h, u, c).storage, h.key, initial, c).memory == Resolve(u, h.memory)
  {
    var v := Resolve(u, h.memory);
    assert c.stringify(v) != "" && c.parse(c.stringify(v)) == Some(v);
  }

  /** Storing `undefined` writes the text "undefined", which a later mount cannot parse. */
  lemma SetUndefinedThenMount(st: Storage, h: Plain, initial: Value, c: Codec)
    requires Lawful(c) && Writable(st)
    ensures MountPlain(SetValue(st, h, Put(Undefined), c).storage, h.key, initial, c).memory == initial
  {
  }

  /** `setValue` on one key leaves what every other key's mount reads untouched. */
  lemma SetValueFrame(st: Storage, h: Plain, u: Update, key: string, initial: Value, c: Codec)
    requires key != h.key
    ensures Load(SetValue(st, h, u, c).storage, key, initial, c) == Load(st, key, initial, c)
  {
    assert SameAt(st, SetValue(st, h, u, c).storage, key);
  }

  // ---------------------------------------------------------------------------
  // useLocalStorageWithExpiry(key, initialValue, ttl)

  /** The default time to live: one day in milliseconds. */
  const DefaultTtl: int := 24 * 60 * 60 * 1000

  /** The record the expiring hook stores: `{ value, expiry }`. */
  function ExpiryRecord(v: Value, expiry: int): (rec: Value)
    ensures Field(rec, "value") == v && Field(rec, "expiry") == Num(expiry)
    ensures Serializable(v) ==> Serializable(rec)
  {
    Obj(map["value" := v, "expiry" := Num(expiry)])
  }

  /**
   * The initial read of the expiring hook exactly as the source has it. A
   * parsed null throws on the property read and falls back; any other parsed
   * value is taken for a record, so a payload without a numeric `expiry`
   * never expires and yields its `value` property, usually undefined.
   */
  function LoadWithExpiryAsWritten(st: Storage, key: string, initial: Value, now: int, c: Codec)
    : (r: Step<Value>)
    ensures StoredText(st, key).None? ==> r == Step(st, initial)
    ensures r.storage != st ==> Reachable(st) && r.storage == RemoveItem(st, key) && r.state == initial
    ensures StoredText(st, key).Some? && c.parse(st.items[key]).None? ==> r == Step(st, initial)
    ensures StoredText(st, key).Some? && c.parse(st.items[key]).Some? ==>
              var item := c.parse(st.items[key]).value;
              r == if item.Null? || item.Undefined? then Step(st, initial)
                   else if GreaterThan(now, Field(item, "expiry")) then Step(RemoveItem(st, key), initial)
                   else Step(st, Field(item, "value"))
  {
    match StoredText(st, key)
    case None => Step(st, initial)
    case Some(text) =>
      match c.parse(text)
      case None => Step(st, initial)
      case Some(item) =>
        if item.Null? || item.Undefined? then Step(st, initial)
        else if GreaterThan(now, Field(item, "expiry")) then Step(RemoveItem(st, key), initial)
        else Step(st, Field(item, "value"))
  }

  /** A payload of the shape the expiring hook writes: an object with a numeric `expiry`. */
  predicate IsExpiryRecord(item: Value) {
    item.Obj? && "expiry" in item.fields && item.fields["expiry"].Num?
  }

  /**
   * The initial read of the expiring hook with a payload of the wrong shape
   * treated like one that fails to parse: the initial value, storage untouched.
   * An expired record (strictly past its expiry) is removed and falls back.
   */
  function LoadWithExpiry(st: Storage, key: string, initial: Value, now: int, c: Codec)
    : (r: Step<Value>)
    ensures StoredText(st, key).None? ==> r == Step(st, initial)
    ensures r.storage != st ==> Reachable(st) && r.storage == RemoveItem(st, key) && r.state == initial
    ensures r.state != initial ==>
              && StoredText(st, key).Some?
              && c.parse(st.items[key]).Some?
              && IsExpiryRecord(c.parse(st.items[key]).value)
              && now <= c.parse(st.items[key]).value.fields["expiry"].n
              && r.state == Field(c.parse(st.items[key]).value, "value")
    ensures StoredText(st, key).Some? && c.parse(st.items[key]).None? ==> r == Step(st, initial)
    ensures StoredText(st, key).Some? && c.parse(st.items[key]).Some? ==>
              var item := c.parse(st.items[key]).value;
              r == if !IsExpiryRecord(item) then Step(st, initial)
                   else if now > item.fields["expiry"].n then Step(RemoveItem(st, key), initial)
                   else Step(st, Field(item, "value"))
  {
    match StoredText(st, key)
    case None => Step(st, initial)
    case Some(text) =>
      match c.parse(text)
      case None => Step(st, initial)
      case Some(item) =>
        if !IsExpiryRecord(item) then Step(st, initial)
        else if now > item.fields["expiry"].n then Step(RemoveItem(st, key), initial)
        else Step(st, Field(item, "value"))
  }

  /** On payloads of the right shape the corrected read and the source's read agree. */
  lemma LoadWithExpiryAgrees(st: Storage, key: string, initial: Value, now: int, c: Codec)
    requires StoredText(st, key).Some? ==>
               c.parse(st.items[key]).None? || IsExpiryRecord(c.parse(st.items[key]).value)
    ensures LoadWithExpiry(st, key, initial, now, c) == LoadWithExpiryAsWritten(st, key, initial, now, c)
  {
  }

  /**
   * The source's read on a payload the plain hook wrote (the number 5): it
   * neither falls back nor expires, but yields undefined.
   */
  lemma AsWrittenReadsForeignPayload(st: Storage, key: string, initial: Value, now: int, c: Codec)
    requires Lawful(c) && Reachable(st)
    requires key in st.items && st.items[key] == c.stringify(Num(5))
    requires initial != Undefined
    ensures LoadWithExpiryAsWritten(st, key, initial, now, c) == Step(st, Undefined)
    ensures LoadWithExpiry(st, key, initial, now, c) == Step(st, initial)
  {
    assert Serializable(Num(5));
  }

  datatype Expiring = Expiring(key: string, ttl: int, memory: Value)

  function MountExpiring(st: Storage, key: string, initial: Value, now: int, c: Codec,
                         ttl: int := DefaultTtl): (r: Step<Expiring>)
    ensures r.state.key == key && r.state.ttl == ttl
    ensures r.storage == st || r.storage == RemoveItem(st, key)
    ensures r.storage == LoadWithExpiry(st, key, initial, now, c).storage
    ensures r.state.memory == LoadWithExpiry(st, key, initial, now, c).state
  {
    var loaded := LoadWithExpiry(st, key, initial, now, c);
    Step(loaded.storage, Expiring(key, ttl, loaded.state))
  }

  /**
   * `setValue` of the expiring hook: memory takes the new value, and storage
   * holds it with an expiry recomputed from the current time, so every write
   * slides the window.
   */
  function SetWithExpiry(st: Storage, h: Expiring, u: Update, now: int, c: Codec): (r: Step<Expiring>)
    ensures r.state == h.(memory := Resolve(u, h.memory))
    ensures Writable(st) ==>
              r.storage.items == st.items[h.key := c.stringify(ExpiryRecord(r.state.memory, now + h.ttl))]
    ensures !Writable(st) ==> r.storage == st
    ensures forall k :: k != h.key ==> SameAt(st, r.storage, k)
  {
    var v := Resolve(u, h.memory);
    Step(SetItem(st, h.key, c.stringify(ExpiryRecord(v, now + h.ttl))), h.(memory := v))
  }

  /** Up to and including the expiry instant, a mount reads back the written value and changes nothing. */
  lemma ExpiryRoundTrip(st: Storage, h: Expiring, u: Update, written: int, now: int, initial: Value,
                        c: Codec)
    requires Lawful(c) && Writable(st)
    requires Serializable(Resolve(u, h.memory))
    requires now <= written + h.ttl
    ensures var st' := SetWithExpiry(st, h, u, written, c).storage;
            MountExpiring(st', h.key, initial, now, c, h.ttl) == Step(st', h.(memory := Resolve(u, h.memory)))
  {
    var rec := ExpiryRecord(Resolve(u, h.memory), written + h.ttl);
    assert c.stringify(rec) != "" && c.parse(c.stringify(rec)) == Some(rec);
  }

  /** Strictly after the expiry instant, a mount falls back to the initial value and purges the key. */
  lemma ExpiredIsPurged(st: Storage, h: Expiring, u: Update, written: int, now: int, initial: Value,
                        c: Codec)
    requires Lawful(c) && Writable(st)
    requires Serializable(Resolve(u, h.memory))
    requires now > written + h.ttl
    ensures var st' := SetWithExpiry(st, h, u, written, c).storage;
            var r := MountExpiring(st', h.key, initial, now, c, h.ttl);
            && r.state.memory == initial
            && h.key !in r.storage.items
            && forall k :: k != h.key ==> SameAt(st, r.storage, k)
  {
    var rec := ExpiryRecord(Resolve(u, h.memory), written + h.ttl);
    assert c.stringify(rec) != "" && c.parse(c.stringify(rec)) == Some(rec);
  }

  // ---------------------------------------------------------------------------
  // useMultipleLocalStorage(keys, initialValues)

  /** Property read on a plain object used as a dictionary: undefined for a missing key. */
  function Lookup(m: map<string, Value>, key: string): (v: Value)
    ensures key in m ==> v == m[key]
  {
    if key in m then m[key] else Undefined
  }

  /**
   * The initial read: without a window, `initials` as given; otherwise each
   * listed key is read on its own, falling back to its own initial value.
   */
  function MountMany(st: Storage, keys: seq<string>, initials: map<string, Value>, c: Codec)
    : (values: map<string, Value>)
    ensures !st.window ==> values == initials
    ensures st.window ==> values.Keys == set k | k in keys
    ensures st.window ==> forall k :: k in keys ==> values[k] == Load(st, k, Lookup(initials, k), c)
  {
    if !st.window then initials
    else map k | k in keys :: Load(st, k, Lookup(initials, k), c)
  }

  /** A corrupt or changed payload under one key does not affect what the others read. */
  lemma MountManyIndependent(st: Storage, keys: seq<string>, initials: map<string, Value>, c: Codec,
                             bad: string, text: string)
    requires st.window
    ensures var st' := st.(items := st.items[bad := text]);
            forall k :: k in keys && k != bad ==>
              MountMany(st', keys, initials, c)[k] == MountMany(st, keys, initials, c)[k]
  {
  }

  /**
   * `setMultipleValues`: memory becomes the shallow merge with the new values
   * winning, and exactly the new keys are written through.
   */
  function SetMultiple(st: Storage, values: map<string, Value>, newValues: map<string, Value>, c: Codec)
    : (r: Step<map<string, Value>>)
    ensures r.state.Keys == values.Keys + newValues.Keys
    ensures forall k :: k in newValues ==> r.state[k] == newValues[k]
    ensures forall k :: k in values && k !in newValues ==> r.state[k] == values[k]
    ensures Writable(st) ==>
              forall k :: k in newValues ==> k in r.storage.items && r.storage.items[k] == c.stringify(newValues[k])
    ensures !Writable(st) ==> r.storage == st
    ensures forall k :: k !in newValues ==> SameAt(st, r.storage, k)
    ensures r.storage.window == st.window && r.storage.access == st.access
  {
    var written := map k | k in newValues :: c.stringify(newValues[k]);
    var st' := if Writable(st) then st.(items := st.items + written) else st;
    Step(st', values + newValues)
  }

  /**
   * Round trip: after `setMultipleValues`, a later mount reads the new value
   * for every written key and the old reading for every other key.
   */
  lemma SetMultipleThenMount(st: Storage, values: map<string, Value>, newValues: map<string, Value>,
                             keys: seq<string>, initials: map<string, Value>, c: Codec)
    requires Lawful(c) && Writable(st)
    requires forall k :: k in newValues ==> Serializable(newValues[k])
    ensures var st' := SetMultiple(st, values, newValues, c).storage;
            forall k :: k in keys ==>
              MountMany(st', keys, initials, c)[k]
                == if k in newValues then newValues[k] else MountMany(st, keys, initials, c)[k]
  {
    var st' := SetMultiple(st, values, newValues, c).storage;
    forall k | k in keys
      ensures MountMany(st', keys, initials, c)[k]
                == if k in newValues then newValues[k] else MountMany(st, keys, initials, c)[k]
    {
      if k in newValues {
        assert c.stringify(newValues[k]) != "" && c.parse(c.stringify(newValues[k])) == Some(newValues[k]);
      } else {
        assert SameAt(st, st', k);
      }
    }
  }

  /** `setSingleValue`: one key of the mapping updated like the plain hook's `setValue`. */
  function SetSingle(st: Storage, values: map<string, Value>, key: string, u: Update, c: Codec)
    : (r: Step<map<string, Value>>)
    ensures r == SetMultiple(st, values, map[key := Resolve(u, Lookup(values, key))], c)
  {
    var v := Resolve(u, Lookup(values, key));
    assert values + map[key := v] == values[key := v];
    assert st.items + (map k | k in map[key := v] :: c.stringify(map[key := v][k]))
        == st.items[key := c.stringify(v)];
    Step(SetItem(st, key, c.stringify(v)), values[key := v])
  }

  // ---------------------------------------------------------------------------
  // clearLocalStorage(keys) and getLocalStorageSize()

  /**
   * `clearLocalStorage`: an empty key list clears the whole storage, a
   * non-empty one removes exactly the listed keys; without a window, or when
   * the storage throws, nothing happens. Hook memories are not touched.
   */
  function Clear(st: Storage, keys: seq<string> := []): (st': Storage)
    ensures st'.window == st.window && st'.access == st.access
    ensures !Reachable(st) ==> st' == st
    ensures Reachable(st) && |keys| == 0 ==> st'.items == map[]
    ensures Reachable(st) && |keys| > 0 ==>
              forall k :: (k in st'.items <==> k in st.items && k !in keys)
    ensures forall k :: k in st'.items ==> k in st.items && st'.items[k] == st.items[k]
  {
    if !Reachable(st) then st
    else if |keys| == 0 then st.(items := map[])
    else st.(items := st.items - set k | k in keys)
  }

  /** After a clear, the cleared keys mount their initial values and the others read as before. */
  lemma ClearThenLoad(st: Storage, keys: seq<string>, key: string, initial: Value, c: Codec)
    requires Reachable(st)
    ensures key in keys || |keys| == 0 ==> Load(Clear(st, keys), key, initial, c) == initial
    ensures key !in keys && |keys| > 0 ==> Load(Clear(st, keys), key, initial, c) == Load(st, key, initial, c)
  {
  }

  /** A full clear leaves a storage of size 0. */
  method ClearAllThenSize(st: Storage) returns (total: nat)
    ensures total == 0
  {
    total := StorageSize(Clear(st));
    TotalSizeEmpty();
  }

  /** After a single write to an empty storage, the size is the key's length plus the text's. */
  method SizeAfterFirstWrite(st: Storage, h: Plain, v: Value, c: Codec) returns (total: nat)
    requires Writable(st) && st.items == map[]
    ensures total == |h.key| + |c.stringify(v)|
  {
    var r := SetValue(st, h, Put(v), c);
    total := StorageSize(r.storage);
    TotalSizeEmpty();
    TotalSizeUpdate(map[], h.key, c.stringify(v));
    assert r.storage.items == map[h.key := c.stringify(v)];
    assert map[h.key := c.stringify(v)] - {h.key} == map[];
  }
}
