/** The de-duplication by name shared by the film and series pages
    (src/Movies.jsx, src/Home.jsx): records are folded, in order, into a
    `Map` keyed by the normalised name. The first record of a name creates
    the map entry and every later record of that name is absorbed into
    it; records without a name are skipped. `Array.from(map.values())`
    then lists the entries in the order their names first appeared. */
module Merge {
  import opened Wrappers
  import JsString
  import Seqs

  /** JavaScript truthiness of an optional string: present and not empty. */
  predicate Truthy(o: Option<string>) {
    o.Some? && o.value != ""
  }

  /** `name?.toLowerCase().trim()`, with the empty string for a missing
      name; both are skipped by the `if (!normalizedName) return`. */
  function NameKey(name: Option<string>): string {
    if name.None? then "" else JsString.Trim(JsString.Lower(name.value))
  }

  /** `list.includes(x)` guarded by `x &&`, then `list.push(x)`: a truthy
      value not yet in the list is appended. */
  function AddAbsent(list: seq<string>, x: Option<string>): (r: seq<string>)
    ensures Seqs.NoDups(list) ==> Seqs.NoDups(r)
    ensures forall c :: c in r <==> c in list || (Truthy(x) && c == x.value)
  {
    if Truthy(x) && x.value !in list then
      assert Seqs.NoDups(list) ==> Seqs.NoDups(list + [x.value]) by {
        if Seqs.NoDups(list) {
          var r := list + [x.value];
          forall i, j | 0 <= i < j < |r| ensures r[i] != r[j] {
            if j == |list| { assert r[i] == list[i]; assert list[i] in list; }
            else { assert r[i] == list[i] && r[j] == list[j]; }
          }
        }
      }
      list + [x.value]
    else list
  }

  /** A JavaScript `Map` from names to entries: the keys in insertion
      order and the entry of each. */
  datatype Table<V> = Table(keys: seq<string>, entries: map<string, V>)

  predicate Valid<V>(t: Table<V>) {
    Seqs.NoDups(t.keys) &&
    (forall k :: k in t.keys ==> k in t.entries) &&
    (forall k :: k in t.entries ==> k in t.keys)
  }

  /** One `forEach` step: skip a record whose key is empty, absorb it into
      the entry of its key when there is one, else add a new entry. */
  function Insert<T, V>(t: Table<V>, x: T, key: T -> string, first: T -> V, absorb: (V, T) -> V): Table<V> {
    var k := key(x);
    if k == "" then t
    else if k in t.entries then Table(t.keys, t.entries[k := absorb(t.entries[k], x)])
    else Table(t.keys + [k], t.entries[k := first(x)])
  }

  /** The whole `forEach` over `items`. */
  function MergeAll<T, V>(items: seq<T>, key: T -> string, first: T -> V, absorb: (V, T) -> V): Table<V>
    decreases |items|
  {
    if items == [] then Table([], map[])
    else Insert(MergeAll(items[..|items| - 1], key, first, absorb), items[|items| - 1], key, first, absorb)
  }

  /** The map after the first `i` steps of the `forEach`, counted from
      the front as the loop goes. */
  function MergeUpTo<T, V>(items: seq<T>, i: nat, key: T -> string, first: T -> V, absorb: (V, T) -> V): Table<V>
    requires i <= |items|
  {
    if i == 0 then Table([], map[])
    else Insert(MergeUpTo(items, i - 1, key, first, absorb), items[i - 1], key, first, absorb)
  }

  /** One more step of the loop. */
  lemma MergeUpToStep<T, V>(items: seq<T>, i: nat, key: T -> string, first: T -> V, absorb: (V, T) -> V, t: Table<V>)
    requires i < |items| && t == Insert(MergeUpTo(items, i, key, first, absorb), items[i], key, first, absorb)
    ensures t == MergeUpTo(items, i + 1, key, first, absorb)
  {
  }

  /** After all the steps the map is the whole `forEach`'s. */
  lemma {:induction false} MergeUpToAll<T, V>(items: seq<T>, i: nat, key: T -> string, first: T -> V, absorb: (V, T) -> V)
    requires i <= |items|
    ensures MergeUpTo(items, i, key, first, absorb) == MergeAll(items[..i], key, first, absorb)
  {
    if i > 0 {
      MergeUpToAll(items, i - 1, key, first, absorb);
      assert items[..i][..i - 1] == items[..i - 1];
    }
  }

  /** The loop over all the records ends with the whole `forEach`'s map,
      a valid one. */
  lemma MergeUpToComplete<T, V>(items: seq<T>, key: T -> string, first: T -> V, absorb: (V, T) -> V)
    ensures MergeUpTo(items, |items|, key, first, absorb) == MergeAll(items, key, first, absorb)
    ensures Valid(MergeAll(items, key, first, absorb))
  {
    MergeUpToAll(items, |items|, key, first, absorb);
    assert items[..|items|] == items;
    MergeAllKeys(items, key, first, absorb);
  }

  /** A single record with a key makes a map of one entry, its first. */
  lemma MergeAllSingle<T, V>(x: T, key: T -> string, first: T -> V, absorb: (V, T) -> V)
    requires key(x) != ""
    ensures Valid(MergeAll([x], key, first, absorb))
    ensures Values(MergeAll([x], key, first, absorb)) == [first(x)]
  {
    assert [x][..0] == [];
    assert MergeAll([x], key, first, absorb) == Table([key(x)], map[key(x) := first(x)]);
  }

  /** `Array.from(map.values())`. */
  function Values<V>(t: Table<V>): (r: seq<V>)
    requires Valid(t)
    ensures |r| == |t.keys| && forall i :: 0 <= i < |r| ==> r[i] == t.entries[t.keys[i]]
  {
    seq(|t.keys|, i requires 0 <= i < |t.keys| => t.entries[t.keys[i]])
  }

  /** The non-empty keys of the records, in order, repeats included. */
  function Keys<T>(items: seq<T>, key: T -> string): (r: seq<string>)
    ensures forall k :: k in r <==> k != "" && exists i :: 0 <= i < |items| && key(items[i]) == k
    decreases |items|
  {
    if items == [] then []
    else
      var p := items[..|items| - 1];
      var x := items[|items| - 1];
      assert forall i :: 0 <= i < |p| ==> items[i] == p[i];
      Keys(p, key) + (if key(x) == "" then [] else [key(x)])
  }

  /** The test "has key `k`". */
  function HasKey<T>(key: T -> string, k: string): T -> bool {
    x => key(x) == k
  }

  /** The records of key `k`, in order. */
  function Group<T(!new)>(items: seq<T>, key: T -> string, k: string): seq<T> {
    Seqs.Filter(items, HasKey(key, k))
  }

  /** A group folded as the map entry sees it: created by the first record
      and absorbing each later one in turn. */
  function FoldGroup<T, V>(g: seq<T>, first: T -> V, absorb: (V, T) -> V): V
    requires |g| >= 1
    decreases |g|
  {
    if |g| == 1 then first(g[0])
    else absorb(FoldGroup(g[..|g| - 1], first, absorb), g[|g| - 1])
  }

  /** The map holds one entry per distinct non-empty key, in the order of
      first appearance. */
  lemma {:induction false} MergeAllKeys<T, V>(items: seq<T>, key: T -> string, first: T -> V, absorb: (V, T) -> V)
    ensures Valid(MergeAll(items, key, first, absorb))
    ensures MergeAll(items, key, first, absorb).keys == Seqs.Dedup(Keys(items, key))
    decreases |items|
  {
    if items != [] {
      var p := items[..|items| - 1];
      var x := items[|items| - 1];
      MergeAllKeys(p, key, first, absorb);
      var t := MergeAll(p, key, first, absorb);
      var ks := Keys(items, key);
      if key(x) != "" {
        assert ks == Keys(p, key) + [key(x)];
        assert ks[..|ks| - 1] == Keys(p, key);
        assert key(x) in t.entries <==> key(x) in Seqs.Dedup(Keys(p, key));
      } else {
        assert ks == Keys(p, key);
      }
    }
  }

  /** The entry of a key is there exactly when some record has that key,
      and it is the fold of that key's group. */
  lemma {:induction false} MergeAllEntry<T(!new), V>(items: seq<T>, key: T -> string, first: T -> V, absorb: (V, T) -> V,
                                              k: string)
    requires k != ""
    ensures var t := MergeAll(items, key, first, absorb);
      (k in t.entries <==> |Group(items, key, k)| > 0) &&
      (k in t.entries ==> t.entries[k] == FoldGroup(Group(items, key, k), first, absorb))
    decreases |items|
  {
    if items != [] {
      var p := items[..|items| - 1];
      var x := items[|items| - 1];
      MergeAllEntry(p, key, first, absorb, k);
      GroupSnoc(items, key, k);
      InsertEntry(MergeAll(p, key, first, absorb), x, key, first, absorb, k, Group(p, key, k));
    }
  }

  /** The group of a key grows by the last record when it has that key. */
  lemma GroupSnoc<T(!new)>(items: seq<T>, key: T -> string, k: string)
    requires items != []
    ensures var x := items[|items| - 1];
      Group(items, key, k) == Group(items[..|items| - 1], key, k) + (if key(x) == k then [x] else [])
  {
    var p := items[..|items| - 1];
    var x := items[|items| - 1];
    assert items == p + [x];
    Seqs.FilterConcat(p, [x], HasKey(key, k));
    if key(x) == k {
      assert Seqs.Filter([x], HasKey(key, k)) == [x];
    } else {
      assert Seqs.Filter([x], HasKey(key, k)) == [];
    }
  }

  /** A step keeps the entry of `k` the fold of the records of key `k`
      seen so far. */
  lemma InsertEntry<T, V>(t: Table<V>, x: T, key: T -> string, first: T -> V, absorb: (V, T) -> V,
                          k: string, g: seq<T>)
    requires k != ""
    requires (k in t.entries <==> |g| > 0) && (k in t.entries ==> t.entries[k] == FoldGroup(g, first, absorb))
    ensures var t' := Insert(t, x, key, first, absorb);
      var g' := g + (if key(x) == k then [x] else []);
      (k in t'.entries <==> |g'| > 0) && (k in t'.entries ==> t'.entries[k] == FoldGroup(g', first, absorb))
  {
    if key(x) == k {
      var g' := g + [x];
      assert g'[..|g'| - 1] == g;
    } else {
      assert g + [] == g;
    }
  }

  /** The truthy values a field takes over a group, in order, repeats
      included. */
  function TruthyValues<T>(g: seq<T>, field: T -> Option<string>): seq<string>
    decreases |g|
  {
    if g == [] then []
    else
      var x := field(g[|g| - 1]);
      TruthyValues(g[..|g| - 1], field) + (if Truthy(x) then [x.value] else [])
  }

  /** Adding a value when absent extends the distinct values by it. */
  lemma AddAbsentDedup(s: seq<string>, x: Option<string>)
    ensures AddAbsent(Seqs.Dedup(s), x) == Seqs.Dedup(s + (if Truthy(x) then [x.value] else []))
  {
    if Truthy(x) {
      var t := s + [x.value];
      assert t[..|t| - 1] == s;
    } else {
      assert s + [] == s;
    }
  }
}
