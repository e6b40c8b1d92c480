/**
 The analyzer's `stock_data`: a Python dict from company name to its price
 history, which keeps its keys in insertion order. It is modelled as a
 sequence of entries; a dict never holds a key twice, which `Distinct`
 states. Only the closing prices of a history are used by the analytics.
 */
module StockData {
  import opened Stats
  import opened Sequences

  type Name = string

  datatype Entry = Entry(name: Name, close: seq<real>)

  type Store = seq<Entry>

  /** The keys of the dict, in insertion order. */
  function Names(d: Store): (ns: seq<Name>)
    ensures |ns| == |d|
    ensures forall i :: 0 <= i < |d| ==> ns[i] == d[i].name
  {
    seq(|d|, i requires 0 <= i < |d| => d[i].name)
  }

  /** No name is stored twice. */
  ghost predicate Distinct(d: Store) {
    forall i, j :: 0 <= i < j < |d| ==> d[i].name != d[j].name
  }

  /** `stock_data.get(name)`. */
  function Lookup(d: Store, n: Name): (r: Option<seq<real>>)
    ensures r.None? <==> n !in Names(d)
    ensures r.Some? ==> Entry(n, r.value) in d
    decreases |d|
  {
    if |d| == 0 then None
    else if d[0].name == n then Some(d[0].close)
    else
      assert Names(d) == [d[0].name] + Names(d[1..]);
      Lookup(d[1..], n)
  }

  /** In a dict without repeated keys, every entry is what its name looks up. */
  lemma {:induction false} LookupEntry(d: Store, i: nat)
    requires Distinct(d) && i < |d|
    ensures Lookup(d, d[i].name) == Some(d[i].close)
    decreases i
  {
    if i > 0 {
      LookupEntry(d[1..], i - 1);
    }
  }

  /** Where a name first occurs; in a dict, the one entry holding it. */
  function FirstIndex(d: Store, n: Name): (k: nat)
    requires exists i :: 0 <= i < |d| && d[i].name == n
    ensures k < |d| && d[k].name == n
    ensures forall j :: 0 <= j < k ==> d[j].name != n
    decreases |d|
  {
    if d[0].name == n then 0
    else
      var i :| 0 <= i < |d| && d[i].name == n;
      assert d[1..][i - 1] == d[i];
      var k := FirstIndex(d[1..], n);
      assert forall j :: 1 <= j <= k + 1 ==> d[j] == d[1..][j - 1];
      1 + k
  }

  /** A name that looks something up is held by some entry. */
  lemma LookupFound(d: Store, n: Name)
    requires Lookup(d, n).Some?
    ensures exists i :: 0 <= i < |d| && d[i].name == n
  {
    var i :| 0 <= i < |d| && Names(d)[i] == n;
  }

  /** The first entry holding a name is the one the name looks up. */
  lemma {:induction false} FirstIndexLookup(d: Store, n: Name)
    requires Lookup(d, n).Some?
    ensures Lookup(d, n) == Some(d[FirstIndex(d, n)].close)
    decreases |d|
  {
    LookupFound(d, n);
    if d[0].name != n {
      FirstIndexLookup(d[1..], n);
    }
  }

  /**
   `stock_data[name] = close`: an existing key keeps its place and gets the
   new value, a new key is appended.
   */
  function Put(d: Store, n: Name, v: seq<real>): (r: Store)
    decreases |d|
  {
    if |d| == 0 then [Entry(n, v)]
    else if d[0].name == n then [Entry(n, v)] + d[1..]
    else [d[0]] + Put(d[1..], n, v)
  }

  /** After the assignment the name looks up the new value and every other name what it did before. */
  lemma {:induction false} PutLookup(d: Store, n: Name, v: seq<real>, m: Name)
    ensures Lookup(Put(d, n, v), m) == if m == n then Some(v) else Lookup(d, m)
    decreases |d|
  {
    if |d| > 0 && d[0].name != n {
      PutLookup(d[1..], n, v, m);
    }
  }

  /** Assigning an existing key leaves the key order alone; a new key goes last. */
  lemma PutNames(d: Store, n: Name, v: seq<real>)
    ensures Names(Put(d, n, v)) == if n in Names(d) then Names(d) else Names(d) + [n]
  {
    if n in Names(d) {
      PutExistingNames(d, n, v);
    } else {
      PutNewNames(d, n, v);
    }
  }

  lemma {:induction false} PutExistingNames(d: Store, n: Name, v: seq<real>)
    requires n in Names(d)
    ensures Names(Put(d, n, v)) == Names(d)
    decreases |d|
  {
    NamesCons(d[0], d[1..]);
    if d[0].name != n {
      PutExistingNames(d[1..], n, v);
      NamesCons(d[0], Put(d[1..], n, v));
    } else {
      NamesCons(Entry(n, v), d[1..]);
    }
  }

  lemma {:induction false} PutNewNames(d: Store, n: Name, v: seq<real>)
    requires n !in Names(d)
    ensures Names(Put(d, n, v)) == Names(d) + [n]
    decreases |d|
  {
    if |d| > 0 {
      var head, rest := d[0].name, Names(d[1..]);
      NamesCons(d[0], d[1..]);
      PutNewNames(d[1..], n, v);
      NamesCons(d[0], Put(d[1..], n, v));
      assert [head] + (rest + [n]) == ([head] + rest) + [n];
    }
  }

  lemma NamesCons(e: Entry, d: Store)
    ensures Names([e] + d) == [e.name] + Names(d)
  {
  }

  /** Assigning a key keeps the keys of the dict distinct. */
  lemma PutDistinct(d: Store, n: Name, v: seq<real>)
    requires Distinct(d)
    ensures Distinct(Put(d, n, v))
  {
    var r := Put(d, n, v);
    PutNames(d, n, v);
    var ns, rs := Names(d), Names(r);
    assert forall i, j :: 0 <= i < j < |d| ==> ns[i] != ns[j];
    assert forall i, j :: 0 <= i < j < |r| ==> rs[i] != rs[j];
  }

  /**
   `{name: data for name, data in stock_data.items() if name in selected}`:
   the entries whose name is selected, in the dict's order.
   */
  function Filter(d: Store, selected: seq<Name>): (r: Store)
    ensures forall e :: e in r <==> e in d && e.name in selected
    ensures |r| <= |d|
    decreases |d|
  {
    if |d| == 0 then []
    else if d[0].name in selected then [d[0]] + Filter(d[1..], selected)
    else Filter(d[1..], selected)
  }

  /** The filtered dict has exactly the selected keys of the original, with the same values. */
  lemma {:induction false} FilterLookup(d: Store, selected: seq<Name>, n: Name)
    ensures Lookup(Filter(d, selected), n) == if n in selected then Lookup(d, n) else None
    decreases |d|
  {
    if |d| > 0 {
      FilterLookup(d[1..], selected, n);
    }
  }

  /** Filtering keeps the keys distinct. */
  lemma {:induction false} FilterDistinct(d: Store, selected: seq<Name>)
    requires Distinct(d)
    ensures Distinct(Filter(d, selected))
    decreases |d|
  {
    if |d| > 0 {
      FilterDistinct(d[1..], selected);
      var t := Filter(d[1..], selected);
      assert forall e :: e in t ==> e in d[1..];
      assert forall k :: 0 <= k < |t| ==> t[k].name != d[0].name;
    }
  }

  /** Selecting every key gives the dict back unchanged. */
  lemma {:induction false} FilterAll(d: Store, selected: seq<Name>)
    requires forall i :: 0 <= i < |d| ==> d[i].name in selected
    ensures Filter(d, selected) == d
    decreases |d|
  {
    if |d| > 0 {
      FilterAll(d[1..], selected);
    }
  }

  /** Selecting no stored key gives an empty dict. */
  lemma {:induction false} FilterNone(d: Store, selected: seq<Name>)
    requires forall i :: 0 <= i < |d| ==> d[i].name !in selected
    ensures Filter(d, selected) == []
    decreases |d|
  {
    if |d| > 0 {
      assert forall i :: 0 <= i < |d[1..]| ==> d[1..][i] == d[i + 1];
      FilterNone(d[1..], selected);
    }
  }

  /** Filtering twice by the same selection is filtering once. */
  lemma FilterTwice(d: Store, selected: seq<Name>)
    ensures Filter(Filter(d, selected), selected) == Filter(d, selected)
  {
    var r := Filter(d, selected);
    assert forall i :: 0 <= i < |r| ==> r[i] in r;
    FilterAll(r, selected);
  }

  /** The filtered dict lists its entries in the order the dict had them. */
  lemma {:induction false} FilterKeepsOrder(d: Store, selected: seq<Name>)
    ensures Subsequence(Filter(d, selected), d)
    decreases |d|
  {
    if |d| > 0 {
      FilterKeepsOrder(d[1..], selected);
    }
  }

  /** Every stored history covers the same dates: all have the same length. */
  ghost predicate SharedIndex(d: Store) {
    forall i, j :: 0 <= i < |d| && 0 <= j < |d| ==> |d[i].close| == |d[j].close|
  }
}
