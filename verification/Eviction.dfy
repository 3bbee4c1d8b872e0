/** The disk cache: finalize, the scan of finished entries, and eviction (server/cache.go). */
module Eviction {
  import opened SparseSpec

  datatype File = File(size: nat, mtime: int, isDir: bool)

  datatype Entry = Entry(name: string, size: nat, mtime: int)

  function Sizes(es: seq<Entry>): nat {
    if es == [] then 0 else es[0].size + Sizes(es[1..])
  }

  predicate HasSuffix(s: string, suffix: string) {
    |suffix| <= |s| && s[|s| - |suffix|..] == suffix
  }

  /** A finished entry: an .mp4 that is not a directory. */
  predicate IsEntry(dir: map<string, File>, name: string) {
    name in dir && !dir[name].isDir && HasSuffix(name, ".mp4")
  }

  ghost predicate Distinct(es: seq<Entry>) {
    forall i, j :: 0 <= i < j < |es| ==> es[i].name != es[j].name
  }

  ghost predicate Ascending(es: seq<Entry>) {
    forall i, j :: 0 <= i < j < |es| ==> es[i].mtime <= es[j].mtime
  }

  predicate Describes(dir: map<string, File>, hidden: set<string>, e: Entry) {
    IsEntry(dir, e.name) && e.name !in hidden && e.size == dir[e.name].size && e.mtime == dir[e.name].mtime
  }

  /** The listing of the directory, less the files that could not be looked at. */
  ghost predicate Lists(dir: map<string, File>, hidden: set<string>, es: seq<Entry>) {
    && Distinct(es)
    && (forall i :: 0 <= i < |es| ==> Describes(dir, hidden, es[i]))
    && (forall name :: IsEntry(dir, name) && name !in hidden ==> exists i :: 0 <= i < |es| && es[i].name == name)
  }

  // -------------------------------------------------------- the victims

  /** The entries deleted, in order, when `over` bytes in all are above what remains allowed:
      scanning on, skipping those that cannot be removed, until the total is within budget. */
  function Victims(es: seq<Entry>, total: int, budget: int, stuck: set<string>): seq<Entry> {
    if es == [] || total <= budget then []
    else if es[0].name in stuck then Victims(es[1..], total, budget, stuck)
    else [es[0]] + Victims(es[1..], total - es[0].size, budget, stuck)
  }

  function Names(es: seq<Entry>): set<string> { set i | 0 <= i < |es| :: es[i].name }

  /** Victims are entries that could be removed, in the order of the scan. */
  lemma {:induction false} VictimsInOrder(es: seq<Entry>, total: int, budget: int, stuck: set<string>)
    requires Ascending(es)
    ensures var v := Victims(es, total, budget, stuck);
      && Ascending(v)
      && (forall i :: 0 <= i < |v| ==> v[i] in es && v[i].name !in stuck)
  {
    if es != [] && total > budget {
      var rest := es[1..];
      assert Ascending(rest);
      VictimsInOrder(rest, if es[0].name in stuck then total else total - es[0].size, budget, stuck);
      assert forall e :: e in rest ==> e in es && es[0].mtime <= e.mtime;
    }
  }

  /** Each victim was removed while the total was over budget. */
  lemma {:induction false} RemovedOnlyOverBudget(es: seq<Entry>, total: int, budget: int, stuck: set<string>, k: nat)
    requires k < |Victims(es, total, budget, stuck)|
    ensures total - Sizes(Victims(es, total, budget, stuck)[..k]) > budget
  {
    if es[0].name in stuck {
      RemovedOnlyOverBudget(es[1..], total, budget, stuck, k);
    } else if k > 0 {
      var v := Victims(es[1..], total - es[0].size, budget, stuck);
      RemovedOnlyOverBudget(es[1..], total - es[0].size, budget, stuck, k - 1);
      assert Victims(es, total, budget, stuck)[..k] == [es[0]] + v[..k - 1];
    }
  }

  /** At the end the total is within budget, or every entry was tried. */
  lemma {:induction false} WithinBudgetOrAllTried(es: seq<Entry>, total: int, budget: int, stuck: set<string>)
    ensures var v := Victims(es, total, budget, stuck);
      total - Sizes(v) <= budget || forall e :: e in es ==> e in v || e.name in stuck
  {
    if es != [] && total > budget {
      WithinBudgetOrAllTried(es[1..], if es[0].name in stuck then total else total - es[0].size, budget, stuck);
      var v := Victims(es, total, budget, stuck);
      assert forall e :: e in es ==> e == es[0] || e in es[1..];
      assert es[0].name !in stuck ==> v[0] == es[0] && v[1..] == Victims(es[1..], total - es[0].size, budget, stuck);
    }
  }

  /** The victims are the removable entries of the shortest prefix of the order that is enough, n long;
      where nothing fails, that prefix itself. */
  lemma {:induction false} ShortestPrefix(es: seq<Entry>, total: int, budget: int, stuck: set<string>) returns (n: nat)
    ensures n <= |es| && Victims(es, total, budget, stuck) == Keep(es[..n], stuck)
    ensures n < |es| ==> total - Sizes(Keep(es[..n], stuck)) <= budget
    ensures forall k :: 0 <= k < n ==> total - Sizes(Keep(es[..k], stuck)) > budget
    ensures stuck == {} ==> Victims(es, total, budget, stuck) == es[..n]
  {
    if es == [] || total <= budget {
      n := 0;
    } else {
      var next := if es[0].name in stuck then total else total - es[0].size;
      var m := ShortestPrefix(es[1..], next, budget, stuck);
      n := m + 1;
      assert es[..n][1..] == es[1..][..m] && es[..n] == [es[0]] + es[1..][..m];
      forall k | 0 <= k < n ensures total - Sizes(Keep(es[..k], stuck)) > budget {
        if k > 0 {
          assert es[..k][1..] == es[1..][..k - 1];
          KeepFirst(es[..k], stuck);
        }
      }
      KeepFirst(es[..n], stuck);
    }
  }

  lemma KeepFirst(es: seq<Entry>, gone: set<string>)
    requires es != []
    ensures Sizes(Keep(es, gone)) == (if es[0].name in gone then 0 else es[0].size) + Sizes(Keep(es[1..], gone))
  {
    var k := Keep(es[1..], gone);
    assert ([es[0]] + k)[1..] == k && [] + k == k;
  }

  /** No victim is newer than an entry that could have been removed and was not. */
  lemma {:induction false} NoneNewer(es: seq<Entry>, total: int, budget: int, stuck: set<string>)
    requires Ascending(es)
    ensures var v := Victims(es, total, budget, stuck);
      forall x, e :: x in v && e in es && e !in v && e.name !in stuck ==> x.mtime <= e.mtime
  {
    if es != [] && total > budget {
      var rest := es[1..];
      assert Ascending(rest);
      var next := if es[0].name in stuck then total else total - es[0].size;
      NoneNewer(rest, next, budget, stuck);
      assert forall e :: e in es <==> e == es[0] || e in rest;
      assert forall e :: e in rest ==> es[0].mtime <= e.mtime;
      assert es[0].name !in stuck ==> Victims(es, total, budget, stuck) == [es[0]] + Victims(rest, next, budget, stuck);
    }
  }

  /** An entry larger than the whole budget evicts itself, however recent it is and whatever other
      removals fail, unless its own removal fails. */
  lemma TooLargeEvictsItself(es: seq<Entry>, budget: int, stuck: set<string>, e: Entry)
    requires e in es && e.size > budget
    ensures e in Victims(es, Sizes(es), budget, stuck) <==> e.name !in stuck
  {
    TooLargeFrom(es, Sizes(es), budget, stuck, e);
  }

  lemma {:induction false} TooLargeFrom(es: seq<Entry>, total: int, budget: int, stuck: set<string>, e: Entry)
    requires e in es && e.size > budget && total >= Sizes(es)
    ensures e in Victims(es, total, budget, stuck) <==> e.name !in stuck
  {
    SizesAtLeast(es, e);
    var next := if es[0].name in stuck then total else total - es[0].size;
    if e in es[1..] {
      TooLargeFrom(es[1..], next, budget, stuck, e);
    } else {
      VictimsAreEntries(es[1..], next, budget, stuck);
    }
  }

  lemma {:induction false} SizesConcat(a: seq<Entry>, b: seq<Entry>)
    ensures Sizes(a + b) == Sizes(a) + Sizes(b)
  {
    if a == [] {
      assert a + b == b;
    } else {
      SizesConcat(a[1..], b);
      assert (a + b)[1..] == a[1..] + b;
    }
  }

  lemma {:induction false} SizesAtLeast(es: seq<Entry>, e: Entry)
    requires e in es
    ensures Sizes(es) >= e.size
  {
    if es[0] != e { SizesAtLeast(es[1..], e); }
  }

  /** A listing in another order is a listing still. */
  lemma ListsPermuted(dir: map<string, File>, hidden: set<string>, a: seq<Entry>, b: seq<Entry>)
    requires Lists(dir, hidden, a) && multiset(a) == multiset(b)
    ensures Lists(dir, hidden, b)
  {
    forall i | 0 <= i < |b| ensures b[i] in a {
      assert b[i] in multiset(a);
    }
    forall i, j | 0 <= i < j < |b| ensures b[i].name != b[j].name {
      if b[i].name == b[j].name {
        assert b[i] == b[j];
        assert b == b[..j] + b[j..] && b[..j][i] == b[j] && b[j..][0] == b[j];
        assert multiset(b)[b[j]] >= 2;
        OnceEach(a, b[j]);
      }
    }
    forall name | IsEntry(dir, name) && name !in hidden ensures exists i :: 0 <= i < |b| && b[i].name == name {
      var j :| 0 <= j < |a| && a[j].name == name;
      assert a[j] in multiset(b);
      var i :| 0 <= i < |b| && b[i] == a[j];
    }
  }

  lemma {:induction false} SizesPermuted(a: seq<Entry>, b: seq<Entry>)
    requires multiset(a) == multiset(b)
    ensures Sizes(a) == Sizes(b)
  {
    assert |a| == |multiset(a)| && |b| == |multiset(b)|;
    if a != [] {
      assert a[0] in multiset(b);
      var i :| 0 <= i < |b| && b[i] == a[0];
      var c, d := b[..i], b[i + 1..];
      MovedOut(a, b, i);
      SizesPermuted(a[1..], c + d);
      SizesConcat(c, [b[i]] + d);
      SizesConcat(c, d);
      assert b == c + ([b[i]] + d) && ([b[i]] + d)[1..] == d;
    }
  }

  lemma MovedOut(a: seq<Entry>, b: seq<Entry>, i: nat)
    requires multiset(a) == multiset(b) && a != [] && i < |b| && b[i] == a[0]
    ensures multiset(a[1..]) == multiset(b[..i] + b[i + 1..])
  {
    assert a == [a[0]] + a[1..];
    assert b == b[..i] + [b[i]] + b[i + 1..];
    assert multiset(a) == multiset{a[0]} + multiset(a[1..]);
    assert multiset(b) == multiset(b[..i]) + multiset{b[i]} + multiset(b[i + 1..]);
    assert multiset(b[..i] + b[i + 1..]) == multiset(b[..i]) + multiset(b[i + 1..]);
    assert multiset(a[1..]) == multiset(a) - multiset{a[0]};
  }

  lemma OnceEach(es: seq<Entry>, e: Entry)
    requires Distinct(es) && e in es
    ensures multiset(es)[e] == 1
  {
    var i :| 0 <= i < |es| && es[i] == e;
    assert es == es[..i] + [e] + es[i + 1..];
    assert e !in es[..i] && e !in es[i + 1..];
  }

  // -------------------------------------------------------- the cache object

  class Cache {
    const maxSize: int
    var dir: map<string, File>

    constructor (maxSize: int, dir: map<string, File>)
      ensures this.maxSize == maxSize && this.dir == dir
    {
      this.maxSize, this.dir := maxSize, dir;
    }

    /** scanLocked. `readable` is whether the directory can be read, `hidden` the files whose Info fails. */
    method Scan(readable: bool, hidden: set<string>) returns (total: int, entries: seq<Entry>)
      ensures readable ==> Lists(dir, hidden, entries)
      ensures !readable ==> entries == []
      ensures total == Sizes(entries)
    {
      total, entries := 0, [];
      if !readable { return; }
      var names := dir.Keys;
      while names != {}
        invariant names <= dir.Keys && total == Sizes(entries) && Distinct(entries)
        invariant forall i :: 0 <= i < |entries| ==> Describes(dir, hidden, entries[i]) && entries[i].name !in names
        invariant forall n :: IsEntry(dir, n) && n !in hidden && n !in names ==>
                    exists i :: 0 <= i < |entries| && entries[i].name == n
      {
        var name :| name in names;
        names := names - {name};
        if dir[name].isDir || !HasSuffix(name, ".mp4") || name in hidden { continue; }
        var e := Entry(name, dir[name].size, dir[name].mtime);
        SizesConcat(entries, [e]);
        ghost var before := entries;
        total, entries := total + dir[name].size, entries + [e];
        forall n | IsEntry(dir, n) && n !in hidden && n !in names
          ensures exists i :: 0 <= i < |entries| && entries[i].name == n
        {
          if n == name {
            assert entries[|before|].name == n;
          } else {
            var i :| 0 <= i < |before| && before[i].name == n;
            assert entries[i].name == n;
          }
        }
      }
    }

    /** slices.SortFunc by modification time. It need not be stable: any ascending arrangement of the
        entries may come back, and callers know no more. */
    method SortByMtime(entries: seq<Entry>) returns (sorted: seq<Entry>)
      ensures Ascending(sorted) && multiset(sorted) == multiset(entries)
    {
      sorted := [];
      for k := 0 to |entries|
        invariant Ascending(sorted) && multiset(sorted) == multiset(entries[..k])
      {
        assert entries[..k + 1] == entries[..k] + [entries[k]];
        sorted := Insert(sorted, entries[k]);
      }
      assert entries[..|entries|] == entries;
    }

    method Insert(es: seq<Entry>, e: Entry) returns (r: seq<Entry>)
      requires Ascending(es)
      ensures Ascending(r) && multiset(r) == multiset(es) + multiset{e}
    {
      var i := 0;
      while i < |es| && es[i].mtime <= e.mtime
        invariant 0 <= i <= |es| && forall j :: 0 <= j < i ==> es[j].mtime <= e.mtime
      {
        i := i + 1;
      }
      r := es[..i] + [e] + es[i..];
      assert es == es[..i] + es[i..];
    }

    /** evictLocked. `stuck` names the files whose removal fails. */
    method Evict(readable: bool, hidden: set<string>, stuck: set<string>)
      returns (entries: seq<Entry>, sorted: seq<Entry>, victims: seq<Entry>, total: int)
      modifies this
      ensures readable ==> Lists(old(dir), hidden, entries)
      ensures !readable ==> entries == []
      ensures Ascending(sorted) && multiset(sorted) == multiset(entries)
      ensures (readable ==> Lists(old(dir), hidden, sorted)) && Sizes(sorted) == Sizes(entries)
      ensures victims == Victims(sorted, Sizes(entries), maxSize, stuck)
      ensures dir == old(dir) - Names(victims)
      ensures total == Sizes(entries) - Sizes(victims)
    {
      hide Lists, Ascending;
      total, entries := Scan(readable, hidden);
      sorted := SortByMtime(entries);
      if readable { ListsPermuted(dir, hidden, entries, sorted); }
      SizesPermuted(entries, sorted);
      victims := [];
      if total <= maxSize { return; }
      victims, total := RemoveInOrder(sorted, total, stuck);
    }

    /** The loop of evictLocked, from a running total of `total0`. */
    method RemoveInOrder(es: seq<Entry>, total0: int, stuck: set<string>) returns (victims: seq<Entry>, total: int)
      modifies this
      ensures victims == Victims(es, total0, maxSize, stuck)
      ensures dir == old(dir) - Names(victims)
      ensures total == total0 - Sizes(victims)
    {
      victims, total := [], total0;
      var k := 0;
      while k < |es|
        invariant 0 <= k <= |es|
        invariant victims + Victims(es[k..], total, maxSize, stuck) == Victims(es, total0, maxSize, stuck)
        invariant total == total0 - Sizes(victims)
        invariant dir == old(dir) - Names(victims)
      {
        if total <= maxSize { break; }
        var e := es[k];
        assert es[k..][0] == e && es[k..][1..] == es[k + 1..];
        if e.name !in stuck {
          dir := dir - {e.name};
          NamesSnoc(victims, e);
          SizesConcat(victims, [e]);
          victims := victims + [e];
          total := total - e.size;
        }
        k := k + 1;
      }
    }

    /** finalize. `temp` is the finished temp file, if it can be renamed into place. */
    method Finalize(id: string, temp: Option<File>, readable: bool, hidden: set<string>, stuck: set<string>)
      returns (e: Option<Error>, ghost sorted: seq<Entry>)
      modifies this
      ensures e == None <==> ValidId(id) && temp.Some?
      ensures e != None ==> dir == old(dir)
      ensures e == None ==>
        var placed := old(dir)[id + ".mp4" := temp.value];
        if readable
        then Ascending(sorted) && Lists(placed, hidden, sorted)
          && dir == placed - Names(Victims(sorted, Sizes(sorted), maxSize, stuck))
          && Trimmed(placed, hidden, stuck, maxSize, dir)
        else dir == placed
    {
      sorted := [];
      if !ValidId(id) { return Some(Failed(4)), sorted; }
      if temp == None { return Some(Failed(5)), sorted; }
      dir := dir[id + ".mp4" := temp.value];
      ghost var placed := dir;
      var entries, order, victims, total := Evict(readable, hidden, stuck);
      sorted := order;
      if readable {
        EvictionTrims(placed, hidden, order, maxSize, stuck);
      } else {
        assert multiset(order) == multiset(entries) == multiset{};
        assert order == [] by { assert |order| == |multiset(order)|; }
        assert Names(victims) == {};
      }
      return None, sorted;
    }
  }

  /** A cache id: 64 lower-case hexadecimal digits. */
  predicate ValidId(id: string) {
    |id| == 64 && forall i :: 0 <= i < |id| ==> '0' <= id[i] <= '9' || 'a' <= id[i] <= 'f'
  }

  /** What eviction makes of a directory: only finished entries that can be removed go, none that is
      newer than one that stays and could go; and what is left is within budget, or none of it can go. */
  ghost predicate Trimmed(before: map<string, File>, hidden: set<string>, stuck: set<string>, budget: int,
                          after: map<string, File>)
  {
    && after.Keys <= before.Keys && (forall n :: n in after ==> after[n] == before[n])
    && (forall n :: n in before && n !in after ==> IsEntry(before, n) && n !in hidden && n !in stuck)
    && (forall n, k :: n in before && n !in after && IsEntry(after, k) && k !in hidden && k !in stuck ==>
          before[n].mtime <= after[k].mtime)
    && (forall es :: Lists(after, hidden, es) ==> Sizes(es) <= budget || forall x: Entry :: x in es ==> x.name in stuck)
  }

  lemma EvictionTrims(dir: map<string, File>, hidden: set<string>, es: seq<Entry>, budget: int, stuck: set<string>)
    requires Lists(dir, hidden, es) && Ascending(es)
    ensures Trimmed(dir, hidden, stuck, budget, dir - Names(Victims(es, Sizes(es), budget, stuck)))
  {
    var v := Victims(es, Sizes(es), budget, stuck);
    var now := dir - Names(v);
    VictimsInOrder(es, Sizes(es), budget, stuck);
    NoneNewer(es, Sizes(es), budget, stuck);
    assert v[..|v|] == v;
    TotalIsWhatRemains(dir, hidden, es, budget, stuck, |v|);
    WithinBudgetOrAllTried(es, Sizes(es), budget, stuck);
    forall n | n in dir && n !in now ensures IsEntry(dir, n) && n !in hidden && n !in stuck {
      var x := Gone(dir, hidden, es, v, n);
    }
    forall n, k | n in dir && n !in now && IsEntry(now, k) && k !in hidden && k !in stuck
      ensures dir[n].mtime <= now[k].mtime
    {
      var x := Gone(dir, hidden, es, v, n);
      var y := Listed(dir, hidden, es, k);
      assert y in v ==> k in Names(v);
    }
    forall x | x in v ensures x.name in Names(v) { var i :| 0 <= i < |v| && v[i] == x; }
    forall fs | Lists(now, hidden, fs) ensures Sizes(fs) <= budget || forall x: Entry :: x in fs ==> x.name in stuck {
      ListingsAgree(now, hidden, Keep(es, Names(v)), fs);
      SizesPermuted(Keep(es, Names(v)), fs);
      KeepHas(es, Names(v));
      forall x | x in fs ensures x in es && x !in v {
        assert x in multiset(fs);
        assert x in Keep(es, Names(v));
      }
    }
  }

  lemma Gone(dir: map<string, File>, hidden: set<string>, es: seq<Entry>, v: seq<Entry>, n: string) returns (x: Entry)
    requires Lists(dir, hidden, es) && (forall i :: 0 <= i < |v| ==> v[i] in es) && n in Names(v)
    ensures x in v && x.name == n && Describes(dir, hidden, x)
  {
    var i :| 0 <= i < |v| && v[i].name == n;
    x := v[i];
    assert x in es;
  }

  lemma Listed(dir: map<string, File>, hidden: set<string>, es: seq<Entry>, k: string) returns (x: Entry)
    requires Lists(dir, hidden, es) && IsEntry(dir, k) && k !in hidden
    ensures x in es && x.name == k && Describes(dir, hidden, x)
  {
    var i :| 0 <= i < |es| && es[i].name == k;
    x := es[i];
  }

  /** Two listings of a directory are the same up to order. */
  lemma ListingsAgree(dir: map<string, File>, hidden: set<string>, a: seq<Entry>, b: seq<Entry>)
    requires Lists(dir, hidden, a) && Lists(dir, hidden, b)
    ensures multiset(a) == multiset(b)
  {
    forall e ensures multiset(a)[e] == multiset(b)[e] {
      if e in a {
        ListedIn(dir, hidden, a, b, e);
        OnceEach(a, e);
        OnceEach(b, e);
      } else if e in b {
        ListedIn(dir, hidden, b, a, e);
      }
    }
  }

  lemma ListedIn(dir: map<string, File>, hidden: set<string>, a: seq<Entry>, b: seq<Entry>, e: Entry)
    requires Lists(dir, hidden, a) && Lists(dir, hidden, b) && e in a
    ensures e in b
  {
    assert Describes(dir, hidden, e);
    var x := Listed(dir, hidden, b, e.name);
    assert x == e;
  }

  /** The suffix that marks a finished entry. */
  lemma SuffixMeans(s: string, suffix: string)
    ensures HasSuffix(s, suffix) <==> exists a :: s == a + suffix
  {
    if HasSuffix(s, suffix) { assert s == s[..|s| - |suffix|] + suffix; }
  }

  /** The entry just placed is a finished entry under the name that a lookup of its id asks for. */
  lemma PlacedIsEntry(dir: map<string, File>, id: string, f: File)
    requires !f.isDir
    ensures IsEntry(dir[id + ".mp4" := f], id + ".mp4")
  {
    SuffixMeans(id + ".mp4", ".mp4");
  }

  lemma NamesSnoc(es: seq<Entry>, e: Entry)
    ensures Names(es + [e]) == Names(es) + {e.name}
  {
    var all := es + [e];
    forall n | n in Names(es) + {e.name} ensures n in Names(all) {
      if n in Names(es) {
        var i :| 0 <= i < |es| && es[i].name == n;
        assert all[i].name == n;
      } else {
        assert all[|es|].name == n;
      }
    }
  }

  /** The entries still on disk, and those deleted. */
  function Keep(es: seq<Entry>, gone: set<string>): seq<Entry> {
    if es == [] then [] else (if es[0].name in gone then [] else [es[0]]) + Keep(es[1..], gone)
  }

  function Drop(es: seq<Entry>, gone: set<string>): seq<Entry> {
    if es == [] then [] else (if es[0].name in gone then [es[0]] else []) + Drop(es[1..], gone)
  }

  lemma {:induction false} KeepPlusDrop(es: seq<Entry>, gone: set<string>)
    ensures Sizes(Keep(es, gone)) + Sizes(Drop(es, gone)) == Sizes(es)
  {
    if es != [] {
      KeepPlusDrop(es[1..], gone);
      var k, d := Keep(es[1..], gone), Drop(es[1..], gone);
      assert ([es[0]] + k)[1..] == k && ([es[0]] + d)[1..] == d && [] + k == k && [] + d == d;
    }
  }

  lemma {:induction false} DropSame(es: seq<Entry>, a: set<string>, b: set<string>)
    requires forall i :: 0 <= i < |es| ==> (es[i].name in a <==> es[i].name in b)
    ensures Drop(es, a) == Drop(es, b)
  {
    if es != [] { DropSame(es[1..], a, b); }
  }

  lemma {:induction false} VictimsAreEntries(es: seq<Entry>, total: int, budget: int, stuck: set<string>)
    ensures forall e :: e in Victims(es, total, budget, stuck) ==> e in es
  {
    if es != [] && total > budget {
      VictimsAreEntries(es[1..], if es[0].name in stuck then total else total - es[0].size, budget, stuck);
    }
  }

  /** The first k victims are what deleting them drops from the list. */
  lemma {:induction false} VictimsDropped(es: seq<Entry>, total: int, budget: int, stuck: set<string>, k: nat)
    requires Distinct(es) && k <= |Victims(es, total, budget, stuck)|
    ensures var v := Victims(es, total, budget, stuck)[..k]; Drop(es, Names(v)) == v
  {
    if k == 0 {
      DropNone(es);
    } else {
      var e, rest := es[0], es[1..];
      var next := if e.name in stuck then total else total - e.size;
      var w := Victims(rest, next, budget, stuck);
      var k' := if e.name in stuck then k else k - 1;
      VictimsDropped(rest, next, budget, stuck, k');
      VictimsAreEntries(rest, next, budget, stuck);
      assert e.name !in Names(w[..k']) by {
        forall i | 0 <= i < k' ensures w[i].name != e.name {
          assert w[i] in rest;
          var j :| 0 <= j < |rest| && rest[j] == w[i];
          assert es[j + 1] == rest[j];
        }
      }
      NamesCons(e, w[..k']);
      DropSame(rest, Names(w[..k']), Names([e] + w[..k']));
      assert e.name !in stuck ==> Victims(es, total, budget, stuck)[..k] == [e] + w[..k'];
    }
  }

  lemma {:induction false} DropNone(es: seq<Entry>)
    ensures Drop(es, Names([])) == []
  {
    if es != [] { DropNone(es[1..]); }
  }

  lemma NamesCons(e: Entry, es: seq<Entry>)
    ensures Names([e] + es) == {e.name} + Names(es)
  {
    var all := [e] + es;
    forall n | n in {e.name} + Names(es) ensures n in Names(all) {
      if n == e.name {
        assert all[0].name == n;
      } else {
        var i :| 0 <= i < |es| && es[i].name == n;
        assert all[i + 1].name == n;
      }
    }
  }

  /** What Keep leaves of a list: the entries not gone, in order. */
  lemma {:induction false} KeepHas(es: seq<Entry>, gone: set<string>)
    requires Distinct(es)
    ensures Distinct(Keep(es, gone))
    ensures forall e :: e in Keep(es, gone) <==> e in es && e.name !in gone
  {
    if es != [] {
      KeepHas(es[1..], gone);
      var k := Keep(es[1..], gone);
      forall e | e in k ensures e.name != es[0].name {
        var j :| 0 <= j < |es[1..]| && es[1..][j] == e;
        assert es[j + 1] == e;
      }
      assert forall e :: e in es <==> e == es[0] || e in es[1..];
    }
  }

  /** Deleting entries leaves the listing of the directory without them. */
  lemma KeepLists(dir: map<string, File>, hidden: set<string>, es: seq<Entry>, gone: set<string>)
    requires Lists(dir, hidden, es)
    ensures Lists(dir - gone, hidden, Keep(es, gone))
  {
    KeepHas(es, gone);
    var k := Keep(es, gone);
    forall i | 0 <= i < |k| ensures Describes(dir - gone, hidden, k[i]) {
      assert k[i] in k;
      var j :| 0 <= j < |es| && es[j] == k[i];
    }
    forall name | IsEntry(dir - gone, name) && name !in hidden ensures exists i :: 0 <= i < |k| && k[i].name == name {
      assert IsEntry(dir, name);
      var j :| 0 <= j < |es| && es[j].name == name;
      assert es[j] in k;
      var i :| 0 <= i < |k| && k[i] == es[j];
    }
  }

  /** After each removal the running total is the size of the entries still in the directory. */
  lemma TotalIsWhatRemains(dir: map<string, File>, hidden: set<string>, es: seq<Entry>, budget: int,
                           stuck: set<string>, k: nat)
    requires Lists(dir, hidden, es) && k <= |Victims(es, Sizes(es), budget, stuck)|
    ensures var v := Victims(es, Sizes(es), budget, stuck)[..k];
      && Lists(dir - Names(v), hidden, Keep(es, Names(v)))
      && Sizes(es) - Sizes(v) == Sizes(Keep(es, Names(v)))
  {
    var v := Victims(es, Sizes(es), budget, stuck)[..k];
    VictimsDropped(es, Sizes(es), budget, stuck, k);
    KeepPlusDrop(es, Names(v));
    KeepLists(dir, hidden, es, Names(v));
  }
}
