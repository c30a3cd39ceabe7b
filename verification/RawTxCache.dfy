/**
 The bounded raw-transaction cache of services/wallet-api/src/server.ts. The clock is an input and
 Math.random an arbitrary choice; ceil(0.1 * n) is exact. The maximum is an integer.
 */
module RawTxCache {
  import opened Wrappers
  import opened Lists

  datatype Entry = Entry(rawTx: string, expiresAt: int)

  /** A store that happened: the cached entry for a txid. */
  datatype Stored = Stored(txid: string, entry: Entry)

  /** The entry that the last store for the txid put into the cache. */
  function LastStored(history: seq<Stored>, txid: string): Option<Entry> {
    if history == [] then None
    else if history[|history| - 1].txid == txid then Some(history[|history| - 1].entry)
    else LastStored(history[..|history| - 1], txid)
  }

  /** A tenth of the entries, rounded up, and at least one. */
  function DeleteCount(n: nat): (count: nat)
    ensures n > 0 ==> 1 <= count <= n && n <= 10 * count < n + 10
  {
    var tenth := (n + 9) / 10;
    if tenth < 1 then 1 else tenth
  }

  /** Only entries of `before` are left, unchanged. */
  predicate Within(after: map<string, Entry>, before: map<string, Entry>) {
    forall k :: k in after ==> k in before && after[k] == before[k]
  }

  function Unexpired(entries: map<string, Entry>, now: int): map<string, Entry> {
    map k | k in entries && entries[k].expiresAt > now :: entries[k]
  }

  lemma ListOfSet(s: seq<string>, elements: set<string>)
    requires multiset(s) == multiset(elements)
    ensures NoDuplicates(s) && |s| == |elements|
    ensures forall x :: x in s <==> x in elements
  {
    assert |multiset(elements)| == |elements|;
    forall x: string
      ensures x in s <==> x in elements
    {
      assert x in s <==> x in multiset(s);
    }
    forall i, j | 0 <= i < j < |s|
      ensures s[i] != s[j]
    {
      assert s == s[..j] + s[j..];
      assert s[i] in s[..j] && s[j] in s[j..];
      assert multiset(s)[s[i]] <= 1;
    }
  }

  lemma Smaller(entries: map<string, Entry>, k: string)
    requires k in entries
    ensures |entries - {k}| == |entries| - 1
  {
  }

  lemma WithinSmaller(after: map<string, Entry>, before: map<string, Entry>)
    requires Within(after, before)
    ensures |after| <= |before|
  {
    SubsetSize(after.Keys, before.Keys);
  }

  lemma {:induction false} SubsetSize(a: set<string>, b: set<string>)
    requires a <= b
    ensures |a| <= |b|
    decreases |a|
  {
    if a != {} {
      var x :| x in a;
      SubsetSize(a - {x}, b - {x});
    }
  }

  lemma Replaced(entries: map<string, Entry>, txid: string, entry: Entry)
    ensures (entries - {txid})[txid := entry] == entries[txid := entry]
    ensures |entries[txid := entry]| <= |entries| + 1
  {
  }

  predicate Current(entries: map<string, Entry>, history: seq<Stored>) {
    forall k :: k in entries ==> LastStored(history, k) == Some(entries[k])
  }

  lemma CurrentStored(entries: map<string, Entry>, history: seq<Stored>, last: Stored)
    requires Current(entries, history)
    ensures Current(entries[last.txid := last.entry], history + [last])
  {
  }

  lemma CurrentWithin(after: map<string, Entry>, before: map<string, Entry>, history: seq<Stored>)
    requires Within(after, before) && Current(before, history)
    ensures Current(after, history)
  {
  }

  /** The in-place shuffle: whatever the random choices, the keys are only permuted. */
  method Shuffle(keys: array<string>)
    modifies keys
    ensures multiset(keys[..]) == multiset(old(keys[..]))
  {
    var i := keys.Length - 1;
    while i > 0
      invariant -1 <= i < keys.Length
      invariant multiset(keys[..]) == multiset(old(keys[..]))
    {
      var j :| 0 <= j <= i;
      var tmp := keys[i];
      keys[i] := keys[j];
      keys[j] := tmp;
      i := i - 1;
    }
  }

  class Cache {
    const ttlMs: nat
    const max: nat
    var entries: map<string, Entry>
    ghost var history: seq<Stored>

    /** The cache is bounded, and it holds for each txid nothing but what was stored last. */
    ghost predicate Valid()
      reads this
    {
      |entries| <= max && Current(entries, history)
    }

    constructor (ttlMs: nat, max: nat)
      requires max >= 1
      ensures Valid() && this.ttlMs == ttlMs && this.max == max && entries == map[] && history == []
    {
      this.ttlMs, this.max := ttlMs, max;
      entries, history := map[], [];
    }

    method SweepExpired(now: int)
      modifies this`entries
      ensures entries == Unexpired(old(entries), now)
    {
      var rest := entries.Keys;
      while rest != {}
        invariant rest <= entries.Keys
        invariant forall k :: k in entries <==> k in old(entries) && (k in rest || old(entries)[k].expiresAt > now)
        invariant forall k :: k in entries ==> entries[k] == old(entries)[k]
        decreases rest
      {
        var key :| key in rest;
        rest := rest - {key};
        if entries[key].expiresAt <= now {
          entries := entries - {key};
        }
      }
    }

    method KeyArray() returns (keys: array<string>)
      ensures fresh(keys) && multiset(keys[..]) == multiset(entries.Keys)
    {
      var rest := entries.Keys;
      var listed: seq<string> := [];
      while rest != {}
        invariant rest <= entries.Keys && multiset(listed) + multiset(rest) == multiset(entries.Keys)
        decreases rest
      {
        var key :| key in rest;
        assert multiset(rest) == multiset(rest - {key}) + multiset{key};
        rest := rest - {key};
        listed := listed + [key];
      }
      keys := new string[|listed|](i requires 0 <= i < |listed| => listed[i]);
      assert keys[..] == listed;
    }

    /** The deletion loop over the shuffled keys. */
    method DeleteKeys(keys: seq<string>, count: nat)
      requires count <= |keys| && NoDuplicates(keys) && forall j :: 0 <= j < |keys| ==> keys[j] in entries
      modifies this`entries
      ensures Within(entries, old(entries)) && |entries| == |old(entries)| - count
    {
      for i := 0 to count
        invariant |entries| == |old(entries)| - i && Within(entries, old(entries))
        invariant forall j :: i <= j < |keys| ==> keys[j] in entries
      {
        Smaller(entries, keys[i]);
        entries := entries - {keys[i]};
      }
    }

    /** One eviction round deletes exactly DeleteCount distinct entries, whichever they are, and changes no other. */
    method EvictRandom()
      modifies this`entries
      ensures Within(entries, old(entries))
      ensures old(entries) != map[] ==> |entries| == |old(entries)| - DeleteCount(|old(entries)|)
    {
      if |entries| == 0 {
        return;
      }
      var keys := KeyArray();
      Shuffle(keys);
      ListOfSet(keys[..], entries.Keys);
      DeleteKeys(keys[..], DeleteCount(keys.Length));
    }

    /**
     Brings the cache back to its maximum. At most one entry over it needs at most one eviction round.
     The source's fallback for a round that deletes nothing is never reached.
     */
    method EnforceBounds(now: int) returns (ghost rounds: nat)
      requires max >= 1
      modifies this`entries
      ensures |entries| <= max && Within(entries, old(entries))
      ensures |old(entries)| <= max ==> entries == old(entries) && rounds == 0
      ensures max < |old(entries)| && |Unexpired(old(entries), now)| <= max ==> entries == Unexpired(old(entries), now) && rounds == 0
      ensures |old(entries)| <= max + 1 ==> rounds <= 1
      ensures rounds == 1 ==> |entries| == |Unexpired(old(entries), now)| - DeleteCount(|Unexpired(old(entries), now)|)
    {
      rounds := 0;
      if |entries| <= max {
        return;
      }
      SweepExpired(now);
      WithinSmaller(entries, old(entries));
      ghost var swept := entries;
      while |entries| > max
        invariant Within(entries, old(entries)) && Within(entries, swept)
        invariant swept == Unexpired(old(entries), now) && (rounds > 0 ==> |swept| > max)
        invariant rounds == 0 ==> entries == swept
        invariant rounds == 1 ==> |entries| == |swept| - DeleteCount(|swept|)
        invariant rounds > 0 && |old(entries)| <= max + 1 ==> |entries| <= max
        invariant |old(entries)| <= max + 1 ==> rounds <= 1
        decreases |entries|
      {
        var sizeBefore := |entries|;
        EvictRandom();
        rounds := rounds + 1;
        WithinSmaller(swept, old(entries));
        if |entries| == sizeBefore {
          assert false;
        }
      }
    }

    /** A hit is the value stored last for the txid, not yet expired; an expired entry is dropped. */
    method GetRawTx(txid: string, now: int) returns (r: Option<string>)
      requires Valid()
      modifies this`entries
      ensures Valid()
      ensures r.Some? <==> txid in old(entries) && old(entries)[txid].expiresAt > now
      ensures r.Some? ==> exists expiresAt :: expiresAt > now && LastStored(history, txid) == Some(Entry(r.value, expiresAt))
      ensures entries == if r.None? then old(entries) - {txid} else old(entries)
    {
      if txid !in entries {
        return None;
      }
      if entries[txid].expiresAt <= now {
        WithinSmaller(entries - {txid}, entries);
        entries := entries - {txid};
        return None;
      }
      return Some(entries[txid].rawTx);
    }

    /** Stores a value; the bound holds again afterwards, with at most one eviction round. */
    method SetRawTx(txid: string, rawTx: string, now: int) returns (ghost rounds: nat)
      requires Valid() && max >= 1
      modifies this
      ensures Valid() && rounds <= 1
      ensures history == old(history) + [Stored(txid, Entry(rawTx, now + ttlMs))]
      ensures Within(entries, old(entries)[txid := Entry(rawTx, now + ttlMs)])
      ensures |old(entries)[txid := Entry(rawTx, now + ttlMs)]| <= max ==> entries == old(entries)[txid := Entry(rawTx, now + ttlMs)]
    {
      hide Current, Within, LastStored, Unexpired;
      var entry := Entry(rawTx, now + ttlMs);
      Replaced(entries, txid, entry);
      entries := entries - {txid};
      entries := entries[txid := entry];
      CurrentStored(old(entries), history, Stored(txid, entry));
      history := history + [Stored(txid, entry)];
      rounds := EnforceBounds(now);
      CurrentWithin(entries, old(entries)[txid := entry], history);
    }
  }
}
