/** `FakeStorage`: an in-memory stand-in for the browser's `localStorage`
    that reports every change it makes. */
module FakeLocalStorage {
  import opened Wrappers
  import opened Js
  import opened OrderedMaps
  import opened StorageEvents

  /** The `TypeError` thrown for an argument of the wrong type. */
  datatype StorageError = TypeError(message: string)

  const GetItemKeyMessage: string :=
    "Failed to execute \"getItem\" on \"Storage\": 1 argument required, but only 0 present."
  const SetItemKeyMessage: string :=
    "Failed to execute \"setItem\" on \"Storage\": 1 argument required, but only 0 present."
  const SetItemValueMessage: string :=
    "Failed to execute \"setItem\" on \"Storage\": 2 arguments required, but only 1 present."
  const RemoveItemKeyMessage: string :=
    "Failed to execute \"removeItem\" on \"Storage\": 1 argument required, but only 0 present."
  const KeyIndexMessage: string :=
    "Failed to execute \"key\" on \"Storage\": 1 argument required, but only 0 present."

  /** The change a storage object hands to the event emitter: the key, the new
      value and the old value of one storage event. The event's `storageArea`
      is always the storage object that made the change. */
  datatype ChangeRecord = ChangeRecord(key: string, newValue: Option<string>, oldValue: Option<string>)

  /** `null` or a string, as a dictionary member given explicitly. */
  function GivenOrNull(x: Option<string>): (m: Nullish<string>)
    ensures m.Given? <==> x.Some?
    ensures m.Given? ==> m.value == x.value
  {
    if x.Some? then Given(x.value) else Nullish.Null
  }

  /** The dictionary `_dispatchStorageEvent` hands to `emit` for one change,
      with this storage object as `storageArea` and the page address `url`:
      the event a listener then reads carries exactly the change. */
  function EmitInit(r: ChangeRecord, storageArea: object, url: string): (init: StorageEventInit)
    ensures Initialized("storage", Some(init))
         == EventData("storage", Some(r.key), r.newValue, r.oldValue, Some(storageArea), url)
  {
    StorageEventInit(Given(r.key), GivenOrNull(r.newValue), GivenOrNull(r.oldValue), Given(storageArea), Given(url))
  }

  /** The events `clear` sends for the keys it removed, in their insertion
      order: the old value is read after the store was emptied, so it is null. */
  function ClearedRecords(keys: seq<string>): (r: seq<ChangeRecord>)
    ensures |r| == |keys|
    ensures forall i :: 0 <= i < |r| ==> r[i] == ChangeRecord(keys[i], None, None)
  {
    if keys == [] then [] else ClearedRecords(keys[..|keys| - 1]) + [ChangeRecord(keys[|keys| - 1], None, None)]
  }

  class FakeStorage {
    /** `_data`: the keys in insertion order with their values. */
    var data: OrderedMap
    /** `_length`: a count kept beside `_data` and updated by hand. */
    var count: int
    /** Every change sent to the event emitter so far, oldest first. */
    ghost var dispatched: seq<ChangeRecord>

    /** The cached count always equals the number of stored entries. */
    ghost predicate Valid()
      reads this
    {
      data.Wf() && count == data.Size()
    }

    constructor ()
      ensures Valid()
      ensures data == Empty() && dispatched == []
    {
      data := Empty();
      count := 0;
      dispatched := [];
    }

    /** The `length` getter. */
    function Length(): (n: int)
      reads this
      requires Valid()
      ensures n == |data.entries|
    {
      SizeIsEntryCount(data);
      count
    }

    /** `getItem(key)`: throws for a non-string key; reads null for a missing
      key and also for a key stored with the empty string. */
    function GetItem(key: JsValue): (r: Result<Option<string>, StorageError>)
      reads this
      ensures r.Err? <==> !IsString(key)
      ensures r.Err? ==> r.error == TypeError(GetItemKeyMessage)
      ensures r.Ok? ==> (r.value.Some? <==> key.s in data.entries && data.entries[key.s] != "")
      ensures r.Ok? && r.value.Some? ==> r.value.value == data.entries[key.s]
    {
      if !IsString(key) then Err(TypeError(GetItemKeyMessage))
      else Ok(OrNull(data.Get(key.s)))
    }

    /** `setItem(key, value)`: checks both arguments, stores the value and
      sends one change carrying the value read before the write. */
    method SetItem(key: JsValue, value: JsValue) returns (r: Outcome<StorageError>)
      requires Valid()
      modifies this
      ensures Valid()
      ensures r.Pass? <==> IsString(key) && IsString(value)
      ensures !IsString(key) ==> r == Fail(TypeError(SetItemKeyMessage))
      ensures IsString(key) && !IsString(value) ==> r == Fail(TypeError(SetItemValueMessage))
      ensures r.Fail? ==> data == old(data) && count == old(count) && dispatched == old(dispatched)
      ensures r.Pass? ==> data == old(data).Set(key.s, value.s)
      ensures r.Pass? ==>
        dispatched == old(dispatched) + [ChangeRecord(key.s, Some(value.s), OrNull(old(data).Get(key.s)))]
      ensures r.Pass? ==> Length() == if old(data.Has(key.s)) then old(Length()) else old(Length()) + 1
      ensures r.Pass? && value.s != "" ==> GetItem(key) == Ok(Some(value.s))
      ensures r.Pass? ==> forall j :: j != key.s ==> data.Get(j) == old(data).Get(j)
      ensures r.Pass? ==> forall i :: 0 <= i < old(data.Size()) ==> data.keys[i] == old(data).keys[i]
    {
      if !IsString(key) {
        return Fail(TypeError(SetItemKeyMessage));
      }
      if !IsString(value) {
        return Fail(TypeError(SetItemValueMessage));
      }
      var k, v := key.s, value.s;
      var oldValue := OrNull(data.Get(k));
      var wasPresent := data.Has(k);
      SetSpec(data, k, v);
      SizeIsEntryCount(data);
      data := data.Set(k, v);
      SizeIsEntryCount(data);
      if !wasPresent {
        count := count + 1;
      }
      DispatchStorageEvent(k, Some(v), oldValue);
      return Pass;
    }

    /** `removeItem(key)`: deletes the key and sends one change carrying the
      value read before the delete; the change is sent even when the key was
      not there. */
    method RemoveItem(key: JsValue) returns (r: Outcome<StorageError>)
      requires Valid()
      modifies this
      ensures Valid()
      ensures r.Pass? <==> IsString(key)
      ensures r.Fail? ==> r.error == TypeError(RemoveItemKeyMessage)
      ensures r.Fail? ==> data == old(data) && count == old(count) && dispatched == old(dispatched)
      ensures r.Pass? ==> data == old(data).Delete(key.s)
      ensures r.Pass? ==>
        dispatched == old(dispatched) + [ChangeRecord(key.s, None, OrNull(old(data).Get(key.s)))]
      ensures r.Pass? ==> !data.Has(key.s)
      ensures r.Pass? ==> Length() == if old(data.Has(key.s)) then old(Length()) - 1 else old(Length())
      ensures r.Pass? ==> forall j :: j != key.s ==> data.Get(j) == old(data).Get(j)
    {
      if !IsString(key) {
        return Fail(TypeError(RemoveItemKeyMessage));
      }
      var k := key.s;
      var oldValue := OrNull(data.Get(k));
      var wasPresent := data.Has(k);
      ghost var before := data;
      DeleteSpec(before, k);
      data := data.Delete(k);
      if wasPresent {
        count := count - 1;
      }
      assert Valid();
      SizeIsEntryCount(before);
      SizeIsEntryCount(data);
      DispatchStorageEvent(k, None, oldValue);
      return Pass;
    }

    /** `clear()`: empties the store, then sends one change per key it held,
      in insertion order. */
    method Clear()
      requires Valid()
      modifies this
      ensures Valid()
      ensures data == Empty() && Length() == 0
      ensures dispatched == old(dispatched) + ClearedRecords(old(data.keys))
    {
      var keys := data.keys;
      data := Empty();
      count := 0;
      for i := 0 to |keys|
        invariant data == Empty() && count == 0
        invariant dispatched == old(dispatched) + ClearedRecords(keys[..i])
      {
        assert keys[..i + 1][..i] == keys[..i];
        DispatchStorageEvent(keys[i], None, OrNull(data.Get(keys[i])));
      }
      assert keys[..|keys|] == keys;
    }

    /** `key(index)`: throws for a non-number; otherwise the key at that
      position in insertion order, or null when there is none or it is "". */
    function Key(index: JsValue): (r: Result<Option<string>, StorageError>)
      reads this
      ensures r.Err? <==> !IsNumber(index)
      ensures r.Err? ==> r.error == TypeError(KeyIndexMessage)
      ensures r.Ok? && r.value.Some? ==>
        exists i :: 0 <= i < |data.keys| && index == Num(i as real) && r.value.value == data.keys[i] != ""
    {
      if !IsNumber(index) then Err(TypeError(KeyIndexMessage))
      else if index.NonFiniteNum? then Ok(None)
      else
        var i := ArrayIndex(index.n, |data.keys|);
        Ok(if i.Some? then OrNull(Some(data.keys[i.value])) else None)
    }

    /** The `size` getter: the number of entries in `_data`. */
    function Size(): (n: nat)
      reads this
      requires Valid()
      ensures n == |data.entries|
    {
      SizeIsEntryCount(data);
      data.Size()
    }

    /** `has(key)`: true for every stored key, including one whose value is "";
      false for any value that is not a string, since every key is one. */
    predicate Has(key: JsValue): (b: bool)
      reads this
      requires Valid()
      ensures b <==> IsString(key) && key.s in data.keys
    {
      IsString(key) && data.Has(key.s)
    }

    /** `keys()`: one key per stored entry, in insertion order. */
    function Keys(): (r: seq<string>)
      reads this
      requires Valid()
      ensures |r| == Length()
      ensures forall k :: k in r <==> Has(Str(k))
      ensures forall i :: 0 <= i < |r| ==> r[i] == Entries()[i].0
    {
      data.keys
    }

    /** `values()` */
    function Values(): (r: seq<string>)
      reads this
      requires Valid()
      ensures |r| == |data.keys|
      ensures forall i :: 0 <= i < |r| ==> r[i] == data.entries[data.keys[i]]
    {
      data.Values()
    }

    /** `entries()` */
    function Entries(): (r: seq<(string, string)>)
      reads this
      requires Valid()
      ensures |r| == |data.keys|
      ensures forall i :: 0 <= i < |r| ==> r[i].0 == data.keys[i] && r[i].1 == data.entries[r[i].0]
    {
      data.Pairs()
    }

    /** `reset()`: empties the store without sending any change. */
    method Reset()
      requires Valid()
      modifies this
      ensures Valid()
      ensures data == Empty() && Length() == 0
      ensures dispatched == old(dispatched)
    {
      data := Empty();
      count := 0;
    }

    /** `toJSON()`: every key with its value. */
    function ToJSON(): (r: map<string, string>)
      reads this
      requires Valid()
      ensures forall k :: k in r <==> k in data.keys
      ensures forall k :: k in r ==> r[k] == data.entries[k]
    {
      data.entries
    }

    /** `_dispatchStorageEvent`: hands one change to the event emitter. */
    method DispatchStorageEvent(key: string, newValue: Option<string>, oldValue: Option<string>)
      modifies this`dispatched
      ensures dispatched == old(dispatched) + [ChangeRecord(key, newValue, oldValue)]
    {
      dispatched := dispatched + [ChangeRecord(key, newValue, oldValue)];
    }
  }

  /** `key(i)` names the key `keys()` lists at position `i`, unless that key is "". */
  lemma KeyAtPosition(s: FakeStorage, i: nat)
    requires s.Valid()
    requires i < |s.Keys()| && s.Keys()[i] != ""
    ensures s.Key(Num(i as real)) == Ok(Some(s.Keys()[i]))
  {
  }

  /** A key stored with the empty string is present for `has` but reads back
      as null from `getItem`, like a missing key. */
  lemma EmptyValueReadsNull(s: FakeStorage, k: string)
    requires s.Valid()
    ensures s.GetItem(Str(k)) == Ok(None) <==> !s.Has(Str(k)) || s.data.entries[k] == ""
  {
  }

  /** `key(i)` reads null past the last key. */
  lemma KeyOutOfRange(s: FakeStorage, i: nat)
    requires i >= |s.data.keys|
    ensures s.Key(Num(i as real)) == Ok(None)
  {
  }
}
