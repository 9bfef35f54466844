/**
 The prompt-cache metadata index. Its contract is written over the history of calls alone: what it
 holds is a function of which keys were recorded or hit, never of how the dictionary was shuffled.
 */
module PromptCache {
  import opened Common
  import opened Recency
  import opened OrderedDicts

  /** `key_for` as an injective digest of the model and the prompt. */
  datatype Key = Key(modelId: string, prompt: string)

  datatype Entry = Entry(key: Key, modelId: string, tokenCount: int)

  datatype Op = Lookup(key: Key) | Record(key: Key, entry: Entry)

  /** The keys touched by a history: every record, and every lookup that is a hit. */
  ghost function Touches(ops: seq<Op>, capacity: nat): seq<Key> {
    if ops == [] then []
    else
      var earlier := Touches(ops[..|ops| - 1], capacity);
      var op := ops[|ops| - 1];
      if op.Record? || op.key in Newest(ByLastTouch(earlier), capacity) then earlier + [op.key] else earlier
  }

  /** The `capacity` most recently touched distinct keys, oldest first. */
  ghost function Held(ops: seq<Op>, capacity: nat): seq<Key> {
    Newest(ByLastTouch(Touches(ops, capacity)), capacity)
  }

  /** The entry most recently recorded under a key. */
  ghost function LastRecorded(ops: seq<Op>, key: Key): Option<Entry> {
    if ops == [] then None
    else
      var op := ops[|ops| - 1];
      if op.Record? && op.key == key then Some(op.entry) else LastRecorded(ops[..|ops| - 1], key)
  }

  lemma HeldStep(ops: seq<Op>, op: Op, capacity: nat)
    ensures Distinct(Held(ops, capacity)) && |Held(ops, capacity)| <= capacity
    ensures Held(ops + [op], capacity) ==
            if op.Record? || op.key in Held(ops, capacity) then Newest(Touch(Held(ops, capacity), op.key), capacity)
            else Held(ops, capacity)
  {
    var touches := Touches(ops, capacity);
    assert (ops + [op])[..|ops|] == ops;
    AppendTouch(touches, op.key, capacity);
  }

  lemma SetThenMove<K, V>(d: OrderedDict<K, V>, key: K, value: V)
    requires d.WellFormed()
    ensures d.Set(key, value).MoveToEnd(key) == OrderedDict(Touch(d.order, key), d.entries[key := value])
  {
    if key !in d.entries {
      assert key !in d.order by { assert key !in Elems(d.order); }
      TouchAppended(d.order, key);
    }
  }

  lemma TouchAppended<K>(s: seq<K>, k: K)
    requires k !in s
    ensures Touch(s + [k], k) == Touch(s, k)
  {
    WithoutAbsent(s, k);
    assert (s + [k])[..|s|] == s;
  }

  ghost predicate Remembers(ops: seq<Op>, entries: map<Key, Entry>) {
    forall k :: k in entries ==> LastRecorded(ops, k) == Some(entries[k])
  }

  /** The index holds the held keys in their order, each with the entry last recorded for it. */
  ghost predicate Holds(ops: seq<Op>, capacity: nat, d: OrderedDict<Key, Entry>) {
    d.WellFormed() && d.order == Held(ops, capacity) && Remembers(ops, d.entries)
  }

  lemma RecordRemembers(ops: seq<Op>, key: Key, entry: Entry, before: map<Key, Entry>, after: map<Key, Entry>)
    requires Remembers(ops, before)
    requires forall k :: k in after ==> k in before[key := entry] && after[k] == before[key := entry][k]
    ensures Remembers(ops + [Op.Record(key, entry)], after)
  {
    assert (ops + [Op.Record(key, entry)])[..|ops|] == ops;
  }

  /** What a recorded entry leaves behind once the oldest ones are evicted. */
  lemma RecordKeeps(ops: seq<Op>, capacity: nat, key: Key, entry: Entry, d: OrderedDict<Key, Entry>,
      r: OrderedDict<Key, Entry>)
    requires Holds(ops, capacity, d) && r.WellFormed()
    requires var kept := d.Set(key, entry).MoveToEnd(key);
             r.order == Newest(kept.order, capacity) && forall k :: k in r.entries ==>
                   k in kept.entries && r.entries[k] == kept.entries[k]
    ensures Holds(ops + [Op.Record(key, entry)], capacity, r)
  {
    SetThenMove(d, key, entry);
    HeldStep(ops, Op.Record(key, entry), capacity);
    RecordRemembers(ops, key, entry, d.entries, r.entries);
  }

  /** A hit is a held key and is moved to the end; a miss changes nothing. */
  lemma LookupKeeps(ops: seq<Op>, capacity: nat, key: Key, d: OrderedDict<Key, Entry>)
    requires Holds(ops, capacity, d)
    ensures key in d.entries <==> WithinDistance(Touches(ops, capacity), key, capacity)
    ensures Holds(ops + [Op.Lookup(key)], capacity, if key in d.entries then d.MoveToEnd(key) else d)
  {
    StackDistance(Touches(ops, capacity), key, capacity);
    HeldStep(ops, Op.Lookup(key), capacity);
    assert key in d.entries <==> key in Elems(d.order);
    if key in d.entries {
      TouchDistinct(d.order, key);
    }
    assert (ops + [Op.Lookup(key)])[..|ops|] == ops;
  }

  class PromptCacheIndex {
    const capacity: nat
    var entries: OrderedDict<Key, Entry>
    ghost var ops: seq<Op>

    ghost predicate Valid()
      reads this
    {
      capacity >= 1 && Holds(ops, capacity, entries)
    }

    constructor (capacity: nat)
      requires capacity >= 1
      ensures Valid() && this.capacity == capacity && ops == []
    {
      this.capacity := capacity;
      entries, ops := OrderedDict([], map[]), [];
    }

    /** The constructor's range check. */
    static method Create(capacity: int) returns (r: Result<PromptCacheIndex, string>)
      ensures r.Success? <==> capacity >= 1
      ensures r.Success? ==> fresh(r.value) && r.value.Valid() && r.value.capacity == capacity && r.value.ops == []
    {
      if capacity < 1 {
        return Failure("capacity must be positive");
      }
      var index := new PromptCacheIndex(capacity);
      return Success(index);
    }

    /** A hit exactly when fewer than `capacity` other keys were touched since this one. */
    method Lookup(modelId: string, prompt: string) returns (entry: Option<Entry>)
      requires Valid()
      modifies this
      ensures Valid() && ops == old(ops) + [Op.Lookup(Key(modelId, prompt))]
      ensures entry.Some? <==> WithinDistance(Touches(old(ops), capacity), Key(modelId, prompt), capacity)
      ensures entry.Some? ==> entry == LastRecorded(old(ops), Key(modelId, prompt))
    {
      var key := Key(modelId, prompt);
      LookupKeeps(ops, capacity, key, entries);
      entry := entries.Get(key);
      if entry.Some? {
        entries := entries.MoveToEnd(key);
      }
      ops := ops + [Op.Lookup(key)];
    }

    method Record(modelId: string, prompt: string, tokenCount: int) returns (entry: Entry)
      requires Valid()
      modifies this
      ensures Valid() && entry == Entry(Key(modelId, prompt), modelId, tokenCount)
      ensures ops == old(ops) + [Op.Record(Key(modelId, prompt), entry)]
    {
      var key := Key(modelId, prompt);
      entry := Entry(key, modelId, tokenCount);
      ghost var before := entries;
      entries := entries.Set(key, entry);
      entries := entries.MoveToEnd(key);
      entries := EvictOldest(entries, capacity);
      RecordKeeps(ops, capacity, key, entry, before, entries);
      ops := ops + [Op.Record(key, entry)];
    }

    method Size() returns (n: nat)
      requires Valid()
      ensures n == |Held(ops, capacity)| <= capacity
    {
      n := |entries.order|;
      HeldStep(ops, Op.Lookup(Key("", "")), capacity);
    }
  }

  /**
   Inclusion: on the same calls, the keys of the smaller index are, in the same order, keys of the
   larger one. The two indexes touch different keys, since a lookup may hit only the larger.
   */
  lemma {:induction false} Inclusion(ops: seq<Op>, small: nat, large: nat)
    requires 1 <= small <= large
    ensures Held(ops, small) == Keep(Held(ops, large), Elems(Held(ops, small)))
    ensures Included(Held(ops, small), small, Held(ops, large), large)
  {
    if ops != [] {
      var n := |ops| - 1;
      var init, op := ops[..n], ops[n];
      Inclusion(init, small, large);
      assert ops == init + [op];
      HeldStep(init, op, small);
      HeldStep(init, op, large);
      var s, l := Held(init, small), Held(init, large);
      assert op.key in s ==> op.key in l by {
        KeepElems(l, Elems(s));
        assert op.key in Elems(s) ==> op.key in Elems(l);
      }
      if op.Record? || op.key in s {
        TouchBoth(s, small, l, large, op.key);
      } else if op.key in l {
        TouchLargeOnly(s, small, l, large, op.key);
      }
    }
  }

  /** Every hit of a smaller index is a hit of a larger one. */
  lemma HitsAreMonotone(ops: seq<Op>, small: nat, large: nat, key: Key)
    requires 1 <= small <= large
    requires WithinDistance(Touches(ops, small), key, small)
    ensures WithinDistance(Touches(ops, large), key, large)
  {
    Inclusion(ops, small, large);
    StackDistance(Touches(ops, small), key, small);
    StackDistance(Touches(ops, large), key, large);
    KeepElems(Held(ops, large), Elems(Held(ops, small)));
    assert key in Elems(Held(ops, small)) && key in Elems(Held(ops, large));
  }
}
