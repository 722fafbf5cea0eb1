/** The string dictionary of iniparser: three parallel slot arrays, a hash filter in front of the
    string comparison, doubling when full, and a probe that starts at `n` and wraps.  */
module Dictionary {
  datatype Option<+T> = None | Some(value: T)

  type Value = Option<string>   // None is C's NULL

  const DICTMINSZ := 128

  // ----- the hash -----

  /** A signed char converted to unsigned. */
  function CharBits(c: char): bv32 {
    var b := (c as int % 256) as bv32;
    if b >= 128 then b + 0xFFFF_FF00 else b
  }

  function HashStep(h: bv32, c: char): bv32 {
    var h1 := h + CharBits(c);
    var h2 := h1 + (h1 << 10);
    h2 ^ (h2 >> 6)
  }

  function HashFold(h: bv32, s: string): bv32
    decreases |s|
  {
    if s == [] then h else HashStep(HashFold(h, s[..|s| - 1]), s[|s| - 1])
  }

  function HashFinish(h: bv32): bv32 {
    var h1 := h + (h << 3);
    var h2 := h1 ^ (h1 >> 11);
    h2 + (h2 << 15)
  }

  function Hash(s: string): bv32 {
    HashFinish(HashFold(0, s))
  }

  method DictionaryHash(key: string) returns (h: bv32)
    ensures h == Hash(key)
  {
    h := 0;
    for i := 0 to |key|
      invariant h == HashFold(0, key[..i])
    {
      assert key[..i + 1][..i] == key[..i];
      h := HashStep(h, key[i]);
    }
    assert key[..|key|] == key;
    h := HashFinish(h);
  }

  // ----- counting slots -----

  /** Occupied slots. */
  function Count(s: seq<Option<string>>): (c: nat)
    ensures c <= |s|
  {
    if s == [] then 0 else Count(s[..|s| - 1]) + if s[|s| - 1].Some? then 1 else 0
  }

  lemma {:induction false} CountUpdate(s: seq<Option<string>>, i: nat, x: Option<string>)
    requires i < |s|
    ensures Count(s[i := x]) == Count(s) + (if x.Some? then 1 else 0) - (if s[i].Some? then 1 else 0)
  {
    var last := |s| - 1;
    if i == last {
      assert s[i := x][..last] == s[..last];
    } else {
      assert s[i := x][..last] == s[..last][i := x];
      CountUpdate(s[..last], i, x);
    }
  }

  /** A table whose count is below its size has an empty slot (pigeonhole). */
  lemma {:induction false} HasEmpty(s: seq<Option<string>>) returns (e: nat)
    requires Count(s) < |s|
    ensures e < |s| && s[e].None?
  {
    var last := |s| - 1;
    if s[last].None? {
      e := last;
    } else {
      e := HasEmpty(s[..last]);
    }
  }

  lemma {:induction false} CountPadded(s: seq<Option<string>>, t: seq<Option<string>>)
    requires forall i :: 0 <= i < |t| ==> t[i].None?
    ensures Count(s + t) == Count(s)
  {
    if t == [] {
      assert s + t == s;
    } else {
      var last := |t| - 1;
      assert (s + t)[..|s| + last] == s + t[..last];
      CountPadded(s, t[..last]);
    }
  }

  /** Slots filled from the front: a count is an index. */
  lemma {:induction false} CountFront(s: seq<Option<string>>, n: nat)
    requires n <= |s| && forall i :: 0 <= i < |s| ==> (s[i].Some? <==> i < n)
    ensures Count(s) == n
  {
    if s == [] {
    } else {
      var last := |s| - 1;
      CountFront(s[..last], if n <= last then n else last);
    }
  }

  // ----- the table -----

  /** Exactly the first `n` slots are occupied. */
  predicate FilledTo(keys: seq<Option<string>>, n: nat) {
    n <= |keys| && forall i :: 0 <= i < |keys| ==> (keys[i].Some? <==> i < n)
  }

  /** Keys are distinct, each stored hash is its key's, and the slots spell out `m`. */
  ghost predicate Represents(keys: seq<Option<string>>, vals: seq<Value>, hashes: seq<bv32>, m: map<string, Value>) {
    |keys| == |vals| == |hashes| &&
    (forall i :: 0 <= i < |keys| && keys[i].Some? ==>
      hashes[i] == Hash(keys[i].value) && keys[i].value in m && m[keys[i].value] == vals[i]) &&
    (forall i, j :: 0 <= i < j < |keys| && keys[i].Some? && keys[j].Some? ==> keys[i] != keys[j]) &&
    (forall k :: k in m ==> Some(k) in keys)
  }

  lemma RepresentsInsert(keys: seq<Option<string>>, vals: seq<Value>, hashes: seq<bv32>, m: map<string, Value>,
                         i: nat, k: string, v: Value)
    requires Represents(keys, vals, hashes, m) && i < |keys| && keys[i].None? && k !in m
    ensures Represents(keys[i := Some(k)], vals[i := v], hashes[i := Hash(k)], m[k := v])
  {
    var keys' := keys[i := Some(k)];
    assert keys'[i] == Some(k);
    forall q | q in m[k := v]
      ensures Some(q) in keys'
    {
      if q != k {
        var j :| 0 <= j < |keys| && keys[j] == Some(q);
        assert keys'[j] == Some(q);
      }
    }
  }

  lemma RepresentsUpdate(keys: seq<Option<string>>, vals: seq<Value>, hashes: seq<bv32>, m: map<string, Value>,
                         i: nat, v: Value)
    requires Represents(keys, vals, hashes, m) && i < |keys| && keys[i].Some?
    ensures Represents(keys, vals[i := v], hashes, m[keys[i].value := v])
  {
  }

  lemma RepresentsRemove(keys: seq<Option<string>>, vals: seq<Value>, hashes: seq<bv32>, m: map<string, Value>, i: nat)
    requires Represents(keys, vals, hashes, m) && i < |keys| && keys[i].Some?
    ensures Represents(keys[i := None], vals[i := None], hashes[i := 0], m - {keys[i].value})
  {
    var keys', m' := keys[i := None], m - {keys[i].value};
    forall q | q in m'
      ensures Some(q) in keys'
    {
      var j :| 0 <= j < |keys| && keys[j] == Some(q);
      assert keys'[j] == Some(q);
    }
  }

  /** Doubling: the old slots, then empty ones. */
  lemma Padded(keys: seq<Option<string>>, vals: seq<Value>, hashes: seq<bv32>, m: map<string, Value>,
               keys': seq<Option<string>>, vals': seq<Value>, hashes': seq<bv32>)
    requires Represents(keys, vals, hashes, m) && |keys'| == |vals'| == |hashes'|
    requires |keys| <= |keys'|
    requires keys'[..|keys|] == keys && vals'[..|keys|] == vals && hashes'[..|keys|] == hashes
    requires forall i :: |keys| <= i < |keys'| ==> keys'[i].None?
    ensures Represents(keys', vals', hashes', m) && Count(keys') == Count(keys)
    ensures forall n :: FilledTo(keys, n) ==> FilledTo(keys', n)
    ensures forall n :: 0 <= n <= |keys| ==> keys'[..n] == keys[..n]
  {
    assert keys' == keys + keys'[|keys|..];
    CountPadded(keys, keys'[|keys|..]);
    forall q | q in m
      ensures Some(q) in keys'
    {
      var j :| 0 <= j < |keys| && keys[j] == Some(q);
      assert keys'[j] == Some(q);
    }
  }

  /** `mem_double`: twice the room, the old contents first, the rest zeroed. */
  method MemDouble<T>(a: array<T>, zero: T) returns (b: array<T>)
    ensures fresh(b) && b.Length == 2 * a.Length && b[..a.Length] == a[..]
    ensures forall i :: a.Length <= i < b.Length ==> b[i] == zero
  {
    b := new T[2 * a.Length](_ => zero);
    forall i | 0 <= i < a.Length { b[i] := a[i]; }
  }

  class Dict {
    var n: nat
    var size: nat
    var key: array<Option<string>>
    var val: array<Value>
    var hash: array<bv32>
    ghost var m: map<string, Value>   // the map this table stands for

    ghost predicate Valid()
      reads this, key, val, hash
    {
      key != val && key as object != hash && val as object != hash &&
      0 < size == key.Length == val.Length == hash.Length &&
      n == Count(key[..]) && Represents(key[..], val[..], hash[..], m)
    }

    /** No hole among the first `n` slots. */
    ghost predicate Compact()
      reads this, key
    {
      FilledTo(key[..], n)
    }

    /** `dictionary_new`. */
    constructor (requested: int)
      ensures Valid() && Compact() && n == 0 && m == map[] && fresh(key) && fresh(val) && fresh(hash)
      ensures size == if requested < 128 then 128 else requested
    {
      var sz := if requested < DICTMINSZ then DICTMINSZ else requested;
      n, size := 0, sz;
      key := new Option<string>[sz](_ => None);
      val := new Value[sz](_ => None);
      hash := new bv32[sz](_ => 0);
      m := map[];
      new;
      CountFront(key[..], 0);
    }

    /** The scan shared by get, set and unset: compare hashes, then strings. */
    method Find(k: string) returns (i: nat)
      requires Valid()
      ensures i <= size
      ensures i < size ==> key[i] == Some(k) && k in m && m[k] == val[i]
      ensures i == size ==> k !in m && Some(k) !in key[..]
    {
      var h := DictionaryHash(k);
      i := 0;
      while i < size
        invariant i <= size
        invariant forall j :: 0 <= j < i ==> key[j] != Some(k)
      {
        if key[i].Some? && h == hash[i] && key[i].value == k {
          return;
        }
        i := i + 1;
      }
    }

    /** `dictionary_get`: the stored value, NULL included, or the default. */
    method Get(k: string, def: Value) returns (r: Value)
      requires Valid()
      ensures r == if k in m then m[k] else def
    {
      var i := Find(k);
      r := if i < size then val[i] else def;
    }

    /** `mem_double` on the three arrays. */
    method Grow()
      requires Valid()
      modifies this
      ensures Valid() && size == 2 * old(size) && n == old(n) && m == old(m)
      ensures fresh(key) && fresh(val) && fresh(hash)
      ensures key[..old(size)] == old(key[..]) && key[..n] == old(key[..n])
      ensures old(Compact()) ==> Compact()
    {
      ghost var k0, v0, h0 := key[..], val[..], hash[..];
      DoubleArrays();
      Padded(k0, v0, h0, m, key[..], val[..], hash[..]);
    }

    method DoubleArrays()
      requires size == key.Length == val.Length == hash.Length
      modifies this`key, this`val, this`hash, this`size
      ensures size == 2 * old(size) == key.Length == val.Length == hash.Length
      ensures fresh(key) && fresh(val) && fresh(hash)
      ensures key != val && key as object != hash && val as object != hash
      ensures key[..old(size)] == old(key[..]) && forall i :: old(size) <= i < size ==> key[i] == None
      ensures val[..old(size)] == old(val[..]) && hash[..old(size)] == old(hash[..])
    {
      var k2 := MemDouble(key, None);
      var v2 := MemDouble(val, None);
      var h2 := MemDouble(hash, 0);
      key, val, hash, size := k2, v2, h2, 2 * size;
    }

    /** The probe for a free slot: it must terminate, because some slot is free. */
    method Probe() returns (i: nat)
      requires Valid() && n < size
      ensures i < size && key[i].None?
      ensures Compact() ==> i == n
    {
      ghost var e := HasEmpty(key[..]);
      i := n;
      while key[i].Some?
        invariant i < size
        invariant Compact() ==> i == n
        decreases if i <= e then e - i else size - i + e
      {
        i := i + 1;
        if i == size { i := 0; }
      }
    }

    /** Overwrite slot `i`. */
    method Put(i: nat, k: Option<string>, v: Value, h: bv32)
      requires key != val && key as object != hash && val as object != hash
      requires i < key.Length == val.Length == hash.Length
      modifies key, val, hash
      ensures key[..] == old(key[..])[i := k] && val[..] == old(val[..])[i := v] && hash[..] == old(hash[..])[i := h]
    {
      key[i] := k;
      val[i] := v;
      hash[i] := h;
    }

    /** Change the value of the key in slot `i`. */
    method Replace(i: nat, v: Value)
      requires Valid() && i < size && key[i].Some?
      modifies this`m, val
      ensures Valid() && m == old(m)[key[i].value := v]
    {
      RepresentsUpdate(key[..], val[..], hash[..], m, i, v);
      val[i] := v;
      assert val[..] == old(val[..])[i := v];
      m := m[key[i].value := v];
    }

    /** Write a new entry into the free slot `i`. */
    method Insert(i: nat, k: string, v: Value)
      requires Valid() && i < size && key[i].None? && k !in m
      modifies this, key, val, hash
      ensures Valid() && m == old(m)[k := v] && n == old(n) + 1 && size == old(size)
      ensures key == old(key) && val == old(val) && hash == old(hash)
      ensures key[..] == old(key[..])[i := Some(k)]
    {
      var h := DictionaryHash(k);
      CountUpdate(key[..], i, Some(k));
      RepresentsInsert(key[..], val[..], hash[..], m, i, k, v);
      Put(i, Some(k), v, h);
      n := n + 1;
      m := m[k := v];
    }

    /** Put a new key into the slot the probe finds. */
    method Place(k: string, v: Value)
      requires Valid() && k !in m && n < size
      modifies this, key, val, hash
      ensures Valid() && m == old(m)[k := v] && n == old(n) + 1 <= key.Length
      ensures key == old(key) && val == old(val) && hash == old(hash)
      ensures old(Compact()) ==> Compact() && key[..n] == old(key[..n]) + [Some(k)]
    {
      var i := Probe();
      Insert(i, k, v);
      if old(Compact()) {
        assert forall j :: 0 <= j < key.Length && j != i ==> key[..][j] == old(key[..])[j];
      }
    }

    /** The second half of `dictionary_set`: a key that is not there yet. */
    method Add(k: string, v: Value)
      requires Valid() && k !in m
      modifies this, key, val, hash
      ensures Valid() && m == old(m)[k := v]
      ensures key == old(key) || fresh(key)
      ensures val == old(val) || fresh(val)
      ensures hash == old(hash) || fresh(hash)
      ensures n == old(n) + 1 <= key.Length
      ensures old(Compact()) ==> Compact() && key[..n] == old(key[..n]) + [Some(k)]
    {
      if n == size {
        Grow();
      }
      Place(k, v);
    }

    /** `dictionary_set`: 0, or -1 for a NULL key.  Without holes a new key goes right after the others. */
    method Set(k: Option<string>, v: Value) returns (rc: int)
      requires Valid()
      modifies this, key, val, hash
      ensures Valid() && rc == if k.None? then -1 else 0
      ensures m == if k.None? then old(m) else old(m)[k.value := v]
      ensures key == old(key) || fresh(key)
      ensures val == old(val) || fresh(val)
      ensures hash == old(hash) || fresh(hash)
      ensures old(Compact()) ==> Compact()
      ensures old(Compact()) ==> key[..n] == old(key[..n]) + if k.Some? && k.value !in old(m) then [k] else []
    {
      if k.None? {
        return -1;
      }
      var i := Find(k.value);
      if i < size {
        Replace(i, v);
        return 0;
      }
      Add(k.value, v);
      return 0;
    }

    /** `dictionary_unset`: nothing happens for a NULL or absent key. */
    method Unset(k: Option<string>)
      requires Valid()
      modifies this, key, val, hash
      ensures Valid() && m == if k.None? then old(m) else old(m) - {k.value}
      ensures key == old(key) && val == old(val) && hash == old(hash)
    {
      if k.None? {
        return;
      }
      var i := Find(k.value);
      if i >= size {
        return;
      }
      CountUpdate(key[..], i, None);
      RepresentsRemove(key[..], val[..], hash[..], m, i);
      Put(i, None, None, 0);
      n := n - 1;
      m := m - {k.value};
    }
  }

  // ----- every sequence of calls -----

  datatype Call = SetCall(k: string, v: Value) | UnsetCall(k: string) | GetCall(k: string, def: Value)

  /** What a map would hold after the calls. */
  function Holds(m: map<string, Value>, calls: seq<Call>): map<string, Value>
    decreases |calls|
  {
    if calls == [] then m
    else
      var p := Holds(m, calls[..|calls| - 1]);
      match calls[|calls| - 1]
      case SetCall(k, v) => p[k := v]
      case UnsetCall(k) => p - {k}
      case GetCall(_, _) => p
  }

  /** What a map would answer to the calls. */
  function Answers(m: map<string, Value>, calls: seq<Call>): seq<Value>
    decreases |calls|
  {
    if calls == [] then []
    else
      var before := calls[..|calls| - 1];
      var p := Holds(m, before);
      Answers(m, before) +
      match calls[|calls| - 1]
      case GetCall(k, def) => [if k in p then p[k] else def]
      case _ => []
  }

  /** The keys in the order of their first set. */
  function FirstSets(calls: seq<Call>): seq<Option<string>>
    decreases |calls|
  {
    if calls == [] then []
    else
      var p := FirstSets(calls[..|calls| - 1]);
      var last := calls[|calls| - 1];
      if last.SetCall? && Some(last.k) !in p then p + [Some(last.k)] else p
  }

  predicate NothingUnset(calls: seq<Call>) {
    forall c :: c in calls ==> !c.UnsetCall?
  }

  lemma {:induction false} HeldAreSet(calls: seq<Call>, k: string)
    requires NothingUnset(calls)
    ensures k in Holds(map[], calls) <==> Some(k) in FirstSets(calls)
    decreases |calls|
  {
    if calls == [] {
    } else {
      assert calls[|calls| - 1] in calls;
      HeldAreSet(calls[..|calls| - 1], k);
    }
  }

  /** One more call: what a map would hold and answer, and the slots in use. */
  method Perform(d: Dict, call: Call) returns (answer: seq<Value>)
    requires d.Valid()
    modifies d, d.key, d.val, d.hash
    ensures d.Valid()
    ensures d.m ==
      match call case SetCall(k, v) => old(d.m)[k := v] case UnsetCall(k) => old(d.m) - {k} case _ => old(d.m)
    ensures answer ==
      match call case GetCall(k, def) => [if k in old(d.m) then old(d.m)[k] else def] case _ => []
    ensures (d.key == old(d.key) || fresh(d.key)) && (d.val == old(d.val) || fresh(d.val))
    ensures d.hash == old(d.hash) || fresh(d.hash)
    ensures old(d.Compact()) && !call.UnsetCall? ==>
      d.Compact() &&
      d.key[..d.n] == old(d.key[..d.n]) + if call.SetCall? && call.k !in old(d.m) then [Some(call.k)] else []
  {
    answer := [];
    match call
    case SetCall(k, v) => var _ := d.Set(Some(k), v);
    case UnsetCall(k) => d.Unset(Some(k));
    case GetCall(k, def) =>
      var r := d.Get(k, def);
      answer := [r];
  }

  /** From an empty table, any sequence of calls answers as a map would and leaves a table that stands for
      that map; if no call removes a key, the slots in use are the keys in the order of their first set. */
  method RefinesMap(calls: seq<Call>) returns (d: Dict, answers: seq<Value>)
    ensures fresh(d) && d.Valid() && d.m == Holds(map[], calls) && answers == Answers(map[], calls)
    ensures NothingUnset(calls) ==> d.Compact() && d.key[..d.n] == FirstSets(calls)
  {
    d := new Dict(0);
    answers := [];
    for i := 0 to |calls|
      invariant d.Valid() && fresh(d) && fresh(d.key) && fresh(d.val) && fresh(d.hash)
      invariant d.m == Holds(map[], calls[..i]) && answers == Answers(map[], calls[..i])
      invariant NothingUnset(calls[..i]) ==> d.Compact() && d.key[..d.n] == FirstSets(calls[..i])
    {
      assert calls[..i + 1][..i] == calls[..i] && calls[..i + 1][i] == calls[i];
      assert NothingUnset(calls[..i + 1]) ==> NothingUnset(calls[..i]) && !calls[i].UnsetCall?;
      if NothingUnset(calls[..i + 1]) && calls[i].SetCall? {
        HeldAreSet(calls[..i], calls[i].k);
      }
      var answer := Perform(d, calls[i]);
      answers := answers + answer;
    }
    assert calls[..|calls|] == calls;
  }
}
