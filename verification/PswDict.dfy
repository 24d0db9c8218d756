/** pswrap's pswdict.c: a dictionary in linked chains, one for each hash value. */
module PswDict {

  class Entry {
    const name: string
    var next: Entry?
    var value: int

    constructor (name: string, value: int, next: Entry?)
      ensures this.name == name && this.value == value && this.next == next
    {
      this.name, this.value, this.next := name, value, next;
    }
  }

  /** The sum of the characters, which are signed. */
  function Sum(name: string): int {
    if name == "" then 0 else
    Sum(name[..|name| - 1]) + (var c := name[|name| - 1] as int; if c % 256 < 128 then c % 256 else c % 256 - 256)
  }

  function HashOf(name: string, n: nat): (x: nat)
    requires n > 0
    ensures x < n
  {
    (if Sum(name) < 0 then -Sum(name) else Sum(name)) % n
  }

  method Hash(name: string, nEntries: nat) returns (x: nat)
    requires nEntries > 0
    ensures x == HashOf(name, nEntries)
  {
    var val, k := 0, 0;
    while k < |name|
      invariant 0 <= k <= |name| && val == Sum(name[..k])
    {
      var c := name[k] as int % 256;
      assert name[..k + 1][..k] == name[..k];
      val := val + if c < 128 then c else c - 256;
      k := k + 1;
    }
    assert name[..k] == name;
    if val < 0 { val := -val; }
    x := val % nEntries;
  }

  /** The k-th entry, or the end of the list. */
  function At(chain: seq<Entry>, k: nat): Entry? {
    if k < |chain| then chain[k] else null
  }

  /** head starts a list of exactly these entries. */
  ghost predicate Linked(head: Entry?, chain: seq<Entry>)
    reads chain`next
  {
    head == At(chain, 0) && forall i :: 0 <= i < |chain| ==> chain[i].next == At(chain, i + 1)
  }

  /** The names of a chain differ, and are exactly the keys of bucket x. */
  ghost predicate ChainOf(chain: seq<Entry>, x: nat, n: nat, keys: set<string>)
    requires n > 0
  {
    && (forall i, j :: 0 <= i < j < |chain| ==> chain[i].name != chain[j].name)
    && (forall i :: 0 <= i < |chain| ==> HashOf(chain[i].name, n) == x && chain[i].name in keys)
    && (forall s :: s in keys && HashOf(s, n) == x ==> exists i :: 0 <= i < |chain| && chain[i].name == s)
  }

  ghost predicate Holds(chain: seq<Entry>, m: map<string, int>)
    reads chain`value
  {
    forall i :: 0 <= i < |chain| ==> chain[i].name in m && m[chain[i].name] == chain[i].value
  }

  lemma {:induction false} ChainAdd(chain: seq<Entry>, e: Entry, x: nat, n: nat, keys: set<string>)
    requires n > 0 && ChainOf(chain, x, n, keys) && HashOf(e.name, n) == x && e.name !in keys
    ensures ChainOf([e] + chain, x, n, keys + {e.name})
  {
    var c := [e] + chain;
    forall s | s in keys + {e.name} && HashOf(s, n) == x ensures exists i :: 0 <= i < |c| && c[i].name == s {
      if s in keys {
        var i :| 0 <= i < |chain| && chain[i].name == s;
        assert c[i + 1] == chain[i];
      } else {
        assert c[0].name == s;
      }
    }
  }

  lemma {:induction false} ChainDrop(chain: seq<Entry>, k: nat, x: nat, n: nat, keys: set<string>)
    requires n > 0 && ChainOf(chain, x, n, keys) && k < |chain|
    ensures ChainOf(chain[..k] + chain[k + 1..], x, n, keys - {chain[k].name})
  {
    var c := chain[..k] + chain[k + 1..];
    forall i | 0 <= i < |c| ensures c[i] == chain[if i < k then i else i + 1] {}
    forall s | s in keys - {chain[k].name} && HashOf(s, n) == x ensures exists i :: 0 <= i < |c| && c[i].name == s {
      var i :| 0 <= i < |chain| && chain[i].name == s;
      assert c[if i < k then i else i - 1] == chain[i];
    }
  }

  /** The list of bucket x: without repetitions, and with just the names of m that belong there. */
  ghost predicate Bucket(head: Entry?, chain: seq<Entry>, x: nat, n: nat, m: map<string, int>)
    requires n > 0
    reads chain
  {
    Linked(head, chain) && ChainOf(chain, x, n, m.Keys) && Holds(chain, m)
  }

  /** A name of one bucket does not matter to the others. */
  lemma {:induction false} EnterElsewhere(head: Entry?, chain: seq<Entry>, y: nat, n: nat, m: map<string, int>, name: string, value: int)
    requires n > 0 && Bucket(head, chain, y, n, m) && HashOf(name, n) != y
    ensures Bucket(head, chain, y, n, m[name := value])
  {
  }

  lemma {:induction false} RemoveElsewhere(head: Entry?, chain: seq<Entry>, y: nat, n: nat, m: map<string, int>, name: string)
    requires n > 0 && Bucket(head, chain, y, n, m) && HashOf(name, n) != y
    ensures Bucket(head, chain, y, n, m - {name})
  {
  }

  lemma {:induction false} NameInBucket(head: Entry?, chain: seq<Entry>, x: nat, n: nat, m: map<string, int>, name: string)
    requires n > 0 && Bucket(head, chain, x, n, m) && HashOf(name, n) == x
    ensures name in m <==> exists i :: 0 <= i < |chain| && chain[i].name == name
    ensures Linked(head, chain) && forall i :: 0 <= i < |chain| ==> chain[i].name in m && m[chain[i].name] == chain[i].value
  {
  }

  method SetValue(e: Entry, value: int, ghost head: Entry?, ghost chain: seq<Entry>, ghost x: nat, ghost n: nat, ghost m: map<string, int>)
    requires n > 0 && Bucket(head, chain, x, n, m) && e in chain
    modifies e
    ensures Bucket(head, chain, x, n, m[e.name := value])
  {
    assert m[e.name := value].Keys == m.Keys;
    e.value := value;
  }

  method Push(head: Entry?, name: string, value: int, ghost chain: seq<Entry>, ghost x: nat, ghost n: nat, ghost m: map<string, int>) returns (e: Entry)
    requires n > 0 && Bucket(head, chain, x, n, m) && HashOf(name, n) == x && name !in m
    ensures fresh(e) && Bucket(e, [e] + chain, x, n, m[name := value])
  {
    e := new Entry(name, value, head);
    ChainAdd(chain, e, x, n, m.Keys);
    hide ChainOf;
    assert m[name := value].Keys == m.Keys + {name};
  }

  method Unlink(head: Entry?, prev: Entry?, e: Entry, ghost chain: seq<Entry>, ghost k: nat, ghost x: nat, ghost n: nat, ghost m: map<string, int>) returns (head': Entry?)
    requires n > 0 && Bucket(head, chain, x, n, m) && k < |chain| && chain[k] == e
    requires prev == if k == 0 then null else chain[k - 1]
    modifies if prev == null then {} else {prev}
    ensures Bucket(head', chain[..k] + chain[k + 1..], x, n, m - {e.name})
  {
    hide ChainOf, Holds;
    ChainDrop(chain, k, x, n, m.Keys);
    assert (m - {e.name}).Keys == m.Keys - {e.name};
    HoldsDrop(chain, k, x, n, m);
    PrevOnce(chain, k, x, n, m);
    if prev == null {
      head' := e.next;
    } else {
      prev.next := e.next;
      head' := head;
    }
    LinkedDrop(head', chain, k);
  }

  lemma {:induction false} PrevOnce(chain: seq<Entry>, k: nat, x: nat, n: nat, m: map<string, int>)
    requires n > 0 && ChainOf(chain, x, n, m.Keys)
    ensures 0 < k < |chain| ==> forall i :: 0 <= i < |chain| && i != k - 1 ==> chain[i] != chain[k - 1]
  {
  }

  lemma {:induction false} HoldsDrop(chain: seq<Entry>, k: nat, x: nat, n: nat, m: map<string, int>)
    requires n > 0 && ChainOf(chain, x, n, m.Keys) && Holds(chain, m) && k < |chain|
    ensures Holds(chain[..k] + chain[k + 1..], m - {chain[k].name})
  {
    var c := chain[..k] + chain[k + 1..];
    forall i | 0 <= i < |c| ensures c[i].name in m - {chain[k].name} && m[c[i].name] == c[i].value {
      assert c[i] == chain[if i < k then i else i + 1];
    }
  }

  lemma {:induction false} LinkedDrop(head: Entry?, chain: seq<Entry>, k: nat)
    requires k < |chain| && head == if k == 0 then At(chain, 1) else chain[0]
    requires forall i :: 0 <= i < |chain| ==> chain[i].next == At(chain, if i == k - 1 then k + 1 else i + 1)
    ensures Linked(head, chain[..k] + chain[k + 1..])
  {
    var c := chain[..k] + chain[k + 1..];
    forall i | 0 <= i < |c| ensures c[i].next == At(c, i + 1) {
      assert c[i] == chain[if i < k then i else i + 1];
    }
  }

  class Dict {
    const nEntries: nat
    const entries: array<Entry?>
    ghost var chains: seq<seq<Entry>>
    ghost var Contents: map<string, int>

    ghost function Cells(): set<Entry>
      reads `chains
    {
      set x, i | 0 <= x < |chains| && 0 <= i < |chains[x]| :: chains[x][i]
    }

    /** Every chain is that of its bucket, so all chains together hold the map. */
    ghost predicate Valid()
      reads this, entries, Cells()
    {
      && 0 < nEntries == entries.Length == |chains|
      && forall x :: 0 <= x < nEntries ==> Bucket(entries[x], chains[x], x, nEntries, Contents)
    }

    /** CreatePSWDict */
    constructor (nEntries: nat)
      requires nEntries > 0
      ensures Valid() && Contents == map[] && fresh(entries) && Cells() == {}
    {
      this.nEntries := nEntries;
      entries := new Entry?[nEntries](_ => null);
      chains := seq(nEntries, _ => []);
      Contents := map[];
    }

    /** The entry of a name in its chain. */
    method Probe(x: nat, name: string) returns (e: Entry?)
      requires Valid() && x == HashOf(name, nEntries)
      ensures e == null <==> name !in Contents
      ensures e != null ==> e in chains[x] && e.name == name && e.value == Contents[name]
    {
      NameInBucket(entries[x], chains[x], x, nEntries, Contents, name);
      hide Bucket;
      e := entries[x];
      ghost var k := 0;
      while e != null && e.name != name
        invariant 0 <= k <= |chains[x]| && e == At(chains[x], k)
        invariant forall i :: 0 <= i < k ==> chains[x][i].name != name
        decreases |chains[x]| - k
      {
        e := e.next;
        k := k + 1;
      }
    }

    /** The entry of a name and the one before it. */
    method PrevProbe(x: nat, name: string) returns (prev: Entry?, e: Entry?, ghost k: nat)
      requires Valid() && x == HashOf(name, nEntries)
      ensures e == null <==> name !in Contents
      ensures e != null ==> k < |chains[x]| && chains[x][k] == e && e.name == name && e.value == Contents[name]
      ensures e != null ==> prev == if k == 0 then null else chains[x][k - 1]
    {
      NameInBucket(entries[x], chains[x], x, nEntries, Contents, name);
      hide Bucket;
      prev, e, k := null, entries[x], 0;
      while e != null && e.name != name
        invariant 0 <= k <= |chains[x]| && e == At(chains[x], k) && prev == if k == 0 then null else chains[x][k - 1]
        invariant forall i :: 0 <= i < k ==> chains[x][i].name != name
        decreases |chains[x]| - k
      {
        prev := e;
        e := e.next;
        k := k + 1;
      }
    }

    /** PSWDictLookup */
    method Lookup(name: string) returns (r: int)
      requires Valid()
      ensures r == if name in Contents then Contents[name] else -1
    {
      var x := Hash(name, nEntries);
      var e := Probe(x, name);
      if e == null { return -1; }
      r := e.value;
    }

    /** PSWDictEnter: adds the name, or gives it a new value. */
    method Enter(name: string, value: int) returns (r: int)
      requires Valid()
      modifies this, entries, Cells()
      ensures Valid() && Contents == old(Contents)[name := value] && fresh(Cells() - old(Cells()))
      ensures r == if name in old(Contents) then -1 else 0
    {
      hide Bucket, HashOf;
      var x := Hash(name, nEntries);
      var e := Probe(x, name);
      Others(x, name, value);
      if e != null {
        SetValue(e, value, entries[x], chains[x], x, nEntries, Contents);
        Contents := Contents[name := value];
        return -1;
      }
      Add(x, name, value);
      r := 0;
    }

    method Add(x: nat, name: string, value: int)
      requires Valid() && x == HashOf(name, nEntries) && name !in Contents
      modifies this, entries
      ensures Valid() && Contents == old(Contents)[name := value] && fresh(Cells() - old(Cells()))
    {
      hide Bucket, HashOf;
      Others(x, name, value);
      var e := Push(entries[x], name, value, chains[x], x, nEntries, Contents);
      entries[x] := e;
      chains := chains[x := [e] + chains[x]];
      Contents := Contents[name := value];
    }

    /** The other buckets do not hold the name, share no entry with its bucket, and need no change. */
    lemma {:induction false} Others(x: nat, name: string, value: int)
      requires Valid() && x == HashOf(name, nEntries)
      ensures forall y :: 0 <= y < nEntries && y != x ==>
                Bucket(entries[y], chains[y], y, nEntries, Contents[name := value])
                && Bucket(entries[y], chains[y], y, nEntries, Contents - {name})
                && forall e :: e in chains[x] ==> e !in chains[y]
    {
      forall y | 0 <= y < nEntries && y != x
        ensures Bucket(entries[y], chains[y], y, nEntries, Contents[name := value])
                && Bucket(entries[y], chains[y], y, nEntries, Contents - {name})
                && forall e :: e in chains[x] ==> e !in chains[y]
      {
        EnterElsewhere(entries[y], chains[y], y, nEntries, Contents, name, value);
        RemoveElsewhere(entries[y], chains[y], y, nEntries, Contents, name);
        assert ChainOf(chains[x], x, nEntries, Contents.Keys) && ChainOf(chains[y], y, nEntries, Contents.Keys);
      }
    }

    /** PSWDictRemove: takes the name, and nothing else, out. */
    method Remove(name: string) returns (r: int)
      requires Valid()
      modifies this, entries, Cells()
      ensures Valid() && Contents == old(Contents) - {name} && Cells() <= old(Cells())
      ensures r == if name in old(Contents) then old(Contents)[name] else -1
    {
      hide Bucket, HashOf;
      var x := Hash(name, nEntries);
      var prev, e, k := PrevProbe(x, name);
      if e == null { return -1; }
      Others(x, name, 0);
      assert prev != null ==> prev in chains[x];
      r := e.value;
      var head := Unlink(entries[x], prev, e, chains[x], k, x, nEntries, Contents);
      entries[x] := head;
      chains := chains[x := chains[x][..k] + chains[x][k + 1..]];
      Contents := Contents - {name};
    }
  }
}
