/**
 * The discovery path of startup: the descriptor files returned for every
 * listed service are collected into a map keyed by file name, and `topSort`
 * puts them in linkage order by a depth-first walk over their imports.
 */
module Linkage {
  import opened Wrappers
  import opened Descriptors

  /**
   * The name-keyed map built from the files returned for the listed services,
   * in the order they arrived: a later file of the same name replaces an
   * earlier one.
   */
  function Collected(fetched: seq<File>): (all: map<string, File>)
    ensures all.Keys == NameSet(fetched)
    ensures KeyedByName(all)
  {
    if fetched == [] then map[]
    else
      var init, last := fetched[..|fetched| - 1], fetched[|fetched| - 1];
      assert fetched == init + [last];
      NameSetAppend(init, [last]);
      Collected(init)[last.name := last]
  }

  /** Each name is held by the LAST fetched file of that name. */
  lemma {:induction false} CollectedLastWins(fetched: seq<File>, k: string)
    requires k in Collected(fetched)
    ensures exists i :: (0 <= i < |fetched| && fetched[i] == Collected(fetched)[k] &&
      forall j :: i < j < |fetched| ==> fetched[j].name != k)
  {
    var n := |fetched| - 1;
    var init, last := fetched[..n], fetched[n];
    assert Collected(fetched) == Collected(init)[last.name := last];
    if k == last.name {
      assert fetched[n] == Collected(fetched)[k];
    } else {
      CollectedLastWins(init, k);
      var i :| 0 <= i < |init| && init[i] == Collected(init)[k] &&
        forall j :: i < j < |init| ==> init[j].name != k;
      forall j | i < j < |fetched| ensures fetched[j].name != k {
        if j < n {
          assert fetched[j] == init[j];
        }
      }
      assert fetched[i] == Collected(fetched)[k];
    }
  }

  /** The names on an in-progress stack. */
  ghost function Elems(s: seq<string>): (r: set<string>)
    ensures forall x :: x in r <==> x in s
  {
    set x | x in s
  }

  /** The names some file of `all` is stored with. */
  ghost function Names(all: map<string, File>): set<string>
  {
    set k | k in all :: all[k].name
  }

  /**
   * The state `topSort` threads through its recursion: the `seen` set of
   * names already entered and the output slice `ds`.
   */
  class Linker {
    var seen: set<string>
    var ds: seq<File>

    ghost predicate Valid()
      reads this
    {
      NoDupNames(ds) && NameSet(ds) <= seen
    }

    constructor ()
      ensures Valid() && seen == {} && ds == []
    {
      seen := {};
      ds := [];
    }

    /**
     * topSort(d, all, seen, &ds). A name already seen returns at once;
     * otherwise the name is marked, each import is looked up in `all` (a
     * missing one is the panic, returned here as its name) and visited, and
     * `d` is appended after them.
     *
     * The ghost `stack` holds the names whose visits are still in progress;
     * with the ghost `track` set (the map is keyed by name and acyclic, and
     * the stack is an import chain ending at `d`) the output stays in
     * linkage order.
     *
     * A first visit that succeeds leaves every import of `d` in the map and
     * its file's name in `seen`. As `seen` is the emitted names plus the
     * stack, a top-level call (empty stack) has emitted all of them.
     */
    method Visit(d: File, all: map<string, File>, ghost stack: seq<string>, ghost track: bool)
        returns (missing: Option<string>, ghost emitted: seq<File>)
      requires Valid() && seen == NameSet(ds) + Elems(stack)
      requires DepsPresent(ds, all)
      requires track ==> KeyedByName(all) && Acyclic(all) && d.name in all && all[d.name] == d
      requires track ==> IsDepPath(all, stack + [d.name]) && DepsFirst(ds)
      modifies this
      decreases Names(all) + {d.name} - seen
      ensures old(d.name in seen) ==> missing.None? && seen == old(seen) && emitted == []
      ensures missing.None? ==> ds == old(ds) + emitted
      ensures missing.None? ==> Valid() && seen == NameSet(ds) + Elems(stack)
      ensures missing.None? ==> seen == old(seen) + NameSet(emitted) && NameSet(emitted) !! old(seen)
      ensures missing.None? ==> d.name in seen
      ensures missing.None? && d.name !in old(seen) ==> emitted != [] && emitted[|emitted| - 1] == d
      ensures missing.None? && d.name !in old(seen) ==>
        forall j :: 0 <= j < |d.deps| ==> d.deps[j] in all && all[d.deps[j]].name in seen
      ensures missing.None? ==> forall f :: f in emitted ==> f == d || f in all.Values
      ensures missing.None? ==> DepsPresent(ds, all)
      ensures missing.None? && track ==> DepsFirst(ds)
      ensures missing.Some? ==> (missing.value !in all &&
        (missing.value in d.deps || exists k :: k in all && missing.value in all[k].deps))
    {
      emitted := [];
      if d.name in seen {
        return None, emitted;
      }
      seen := seen + {d.name};
      ghost var path := stack + [d.name];
      assert path[|path| - 1] == d.name;
      var i := 0;
      while i < |d.deps|
        invariant 0 <= i <= |d.deps|
        invariant Valid() && seen == NameSet(ds) + Elems(path)
        invariant ds == old(ds) + emitted
        invariant old(seen) + {d.name} <= seen
        invariant NameSet(emitted) !! old(seen) + {d.name}
        invariant forall f :: f in emitted ==> f in all.Values
        invariant DepsPresent(ds, all)
        invariant forall j :: 0 <= j < i ==> d.deps[j] in all && all[d.deps[j]].name in seen
        invariant track ==> DepsFirst(ds) && Elems(d.deps[..i]) <= NameSet(ds)
      {
        var dep := d.deps[i];
        if dep !in all {
          return Some(dep), emitted;
        }
        var v := all[dep];
        assert v.name in Names(all);
        ghost var before, seenBefore := ds, seen;
        if track {
          PathExtend(all, path, dep);
        }
        ghost var child;
        missing, child := Visit(v, all, path, track);
        if missing.Some? {
          assert missing.value in v.deps ==> dep in all && missing.value in all[dep].deps;
          return missing, emitted;
        }
        EmittedStep(old(ds), old(seen) + {d.name}, emitted, before, seenBefore, child, ds, seen, all, v);
        if track {
          AcyclicNotOnPath(all, path, dep);
          OrderStep(d.deps, i, before, ds, seen, path);
        }
        emitted := emitted + child;
        ImportStep(d.deps, i, all, seenBefore, seen);
        i := i + 1;
      }
      assert d.deps[..i] == d.deps;
      FinishStep(old(ds), old(seen), stack, emitted, ds, seen, d);
      AppendLast(ds, d, all);
      ds := ds + [d];
      emitted := emitted + [d];
      if track {
        DepsFirstAppend(old(ds) + emitted[..|emitted| - 1], d);
      }
      missing := None;
    }
  }

  /** The bookkeeping of one finished import: the emitted files grow by the child's, and stay fresh. */
  lemma EmittedStep(oldDs: seq<File>, oldSeen: set<string>, emitted: seq<File>, before: seq<File>,
                    seenBefore: set<string>, child: seq<File>, ds: seq<File>, seen: set<string>,
                    all: map<string, File>, v: File)
    requires before == oldDs + emitted && ds == before + child
    requires NameSet(emitted) !! oldSeen && oldSeen <= seenBefore
    requires seen == seenBefore + NameSet(child) && NameSet(child) !! seenBefore
    requires forall f :: f in emitted ==> f in all.Values
    requires v in all.Values && forall f :: f in child ==> f == v || f in all.Values
    ensures ds == oldDs + (emitted + child)
    ensures NameSet(emitted + child) !! oldSeen && oldSeen <= seen
    ensures forall f :: f in emitted + child ==> f in all.Values
  {
    assert (oldDs + emitted) + child == oldDs + (emitted + child);
    NameSetAppend(emitted, child);
  }

  /** The bookkeeping of a finished visit: `d` follows everything emitted beneath it. */
  lemma FinishStep(oldDs: seq<File>, oldSeen: set<string>, stack: seq<string>, emitted: seq<File>,
                   ds: seq<File>, seen: set<string>, d: File)
    requires oldSeen == NameSet(oldDs) + Elems(stack) && d.name !in oldSeen
    requires ds == oldDs + emitted && seen == NameSet(ds) + Elems(stack + [d.name])
    requires NameSet(emitted) !! oldSeen + {d.name}
    ensures ds + [d] == oldDs + (emitted + [d])
    ensures d.name !in NameSet(ds)
    ensures seen == NameSet(ds + [d]) + Elems(stack)
    ensures seen == oldSeen + NameSet(emitted + [d]) && NameSet(emitted + [d]) !! oldSeen
  {
    NameSetAppend(oldDs, emitted);
    NameSetAppend(ds, [d]);
    NameSetAppend(emitted, [d]);
  }

  /** With the child finished and not on the path, its name is among the emitted files. */
  lemma OrderStep(deps: seq<string>, i: nat, before: seq<File>, ds: seq<File>, seen: set<string>, path: seq<string>)
    requires i < |deps| && |before| <= |ds| && ds[..|before|] == before
    requires Elems(deps[..i]) <= NameSet(before)
    requires deps[i] in seen && seen == NameSet(ds) + Elems(path) && deps[i] !in path
    ensures Elems(deps[..i + 1]) <= NameSet(ds)
  {
    NameSetPrefix(before, ds);
    ElemsStep(deps, i);
  }

  lemma ElemsStep(s: seq<string>, i: nat)
    requires i < |s|
    ensures Elems(s[..i + 1]) == Elems(s[..i]) + {s[i]}
  {
    assert s[..i + 1] == s[..i] + [s[i]];
  }

  /** One more import looked up and entered: the imports so far are all in the map and in `seen`. */
  lemma ImportStep(deps: seq<string>, i: nat, all: map<string, File>, seenBefore: set<string>, seen: set<string>)
    requires i < |deps| && deps[i] in all && all[deps[i]].name in seen && seenBefore <= seen
    requires forall j :: 0 <= j < i ==> deps[j] in all && all[deps[j]].name in seenBefore
    ensures forall j :: 0 <= j < i + 1 ==> deps[j] in all && all[deps[j]].name in seen
  {}

  /** What appending a finished file keeps: distinct names and present imports. */
  lemma AppendLast(ds: seq<File>, d: File, all: map<string, File>)
    requires NoDupNames(ds) && d.name !in NameSet(ds)
    requires DepsPresent(ds, all) && forall dep :: dep in d.deps ==> dep in all
    ensures NoDupNames(ds + [d]) && DepsPresent(ds + [d], all)
    ensures NameSet(ds + [d]) == NameSet(ds) + {d.name}
  {
    NoDupAppend(ds, d);
  }

  lemma NameSetPrefix(a: seq<File>, b: seq<File>)
    requires |a| <= |b| && b[..|a|] == a
    ensures NameSet(a) <= NameSet(b)
  {
    forall n | n in NameSet(a) ensures n in NameSet(b) {
      var f :| f in a && f.name == n;
      var i :| 0 <= i < |a| && a[i] == f;
      assert b[i] == f;
    }
  }

  lemma DrawnFromMap(all: map<string, File>, before: seq<File>, ds: seq<File>, d: File)
    requires KeyedByName(all) && d.name in all && all[d.name] == d
    requires |before| <= |ds| && ds[..|before|] == before
    requires DrawnFrom(before, all)
    requires forall f :: f in ds[|before|..] ==> f == d || f in all.Values
    ensures DrawnFrom(ds, all)
  {
    forall f | f in ds ensures f.name in all && all[f.name] == f {
      var i :| 0 <= i < |ds| && ds[i] == f;
      if i < |before| {
        assert before[i] == f;
      } else {
        assert f in ds[|before|..];
      }
    }
  }

  lemma ClosedWhenAllEmitted(all: map<string, File>, ds: seq<File>)
    requires all.Keys <= NameSet(ds)
    requires DrawnFrom(ds, all)
    requires DepsPresent(ds, all)
    ensures Closed(all)
  {
    forall k | k in all ensures forall dep :: dep in all[k].deps ==> dep in all {
      var f :| f in ds && f.name == k;
    }
  }

  /** The position of the file named `n` in `fs`. */
  ghost function PosOf(fs: seq<File>, n: string): (i: nat)
    requires n in NameSet(fs)
    ensures i < |fs| && fs[i].name == n
  {
    var i :| 0 <= i < |fs| && fs[i].name == n; i
  }

  /** An order every file of which is the map's file of that name. */
  predicate DrawnFrom(fs: seq<File>, all: map<string, File>)
  {
    forall f :: f in fs ==> f.name in all && all[f.name] == f
  }

  /** In linkage order an import sits strictly before the file importing it. */
  lemma ImportComesEarlier(fs: seq<File>, all: map<string, File>, a: string, b: string)
    requires DepsFirst(fs) && NoDupNames(fs) && DrawnFrom(fs, all)
    requires a in NameSet(fs) && a in all && b in all[a].deps
    ensures b in NameSet(fs) && PosOf(fs, b) < PosOf(fs, a)
  {
    var i := PosOf(fs, a);
    assert fs[i] in fs;
    assert b in NameSet(fs[..i]);
    var g :| g in fs[..i] && g.name == b;
    var j :| 0 <= j < i && fs[..i][j] == g;
    assert fs[j] == g;
    NameSetPrefix(fs[..i], fs);
  }

  /** Along an import chain that starts in a linkage order, positions strictly decrease. */
  lemma {:induction false} ChainGoesBack(fs: seq<File>, all: map<string, File>, p: seq<string>)
    requires DepsFirst(fs) && NoDupNames(fs) && DrawnFrom(fs, all)
    requires IsDepPath(all, p) && |p| >= 2 && p[0] in NameSet(fs)
    ensures p[|p| - 1] in NameSet(fs) && PosOf(fs, p[|p| - 1]) < PosOf(fs, p[0])
  {
    ImportComesEarlier(fs, all, p[0], p[1]);
    if |p| > 2 {
      ChainGoesBack(fs, all, p[1..]);
    }
  }

  /**
   * A map whose files can be put in linkage order has no import cycle: a
   * cycle would have to place a file strictly before itself.
   */
  lemma LinkableIsAcyclic(fs: seq<File>, all: map<string, File>)
    requires DepsFirst(fs) && NoDupNames(fs) && DrawnFrom(fs, all) && all.Keys <= NameSet(fs)
    ensures Acyclic(all)
  {
    forall p | IsDepPath(all, p) && |p| >= 2 ensures p[0] != p[|p| - 1] {
      ChainGoesBack(fs, all, p);
    }
  }

  /** Lines 180-188: the fetched files keyed by name, a later one replacing an earlier one. */
  method Collect(fetched: seq<File>) returns (all: map<string, File>)
    ensures all == Collected(fetched)
  {
    all := map[];
    for i := 0 to |fetched|
      invariant all == Collected(fetched[..i])
    {
      assert fetched[..i + 1][..i] == fetched[..i];
      all := all[fetched[i].name := fetched[i]];
    }
    assert fetched[..|fetched|] == fetched;
  }

  /**
   * Lines 193-197: run `topSort` from every file of the map in whatever order
   * the map is iterated (the choice of `k` below is arbitrary, so everything
   * proved holds for every order).
   */
  method SortAll(all: map<string, File>) returns (r: Result<seq<File>, string>)
    requires KeyedByName(all)
    ensures r.Success? <==> Closed(all)
    ensures r.Failure? ==> (r.error !in all && exists k :: k in all && r.error in all[k].deps)
    ensures r.Success? ==> NoDupNames(r.value) && NameSet(r.value) == all.Keys
    ensures r.Success? ==> DrawnFrom(r.value, all)
    ensures r.Success? && Acyclic(all) ==> DepsFirst(r.value)
  {
    var linker := new Linker();
    ghost var acyclic := Acyclic(all);
    var keys := all.Keys;
    while keys != {}
      invariant keys <= all.Keys
      invariant linker.Valid() && linker.seen == NameSet(linker.ds)
      invariant all.Keys - keys <= linker.seen <= all.Keys
      invariant DrawnFrom(linker.ds, all)
      invariant DepsPresent(linker.ds, all)
      invariant acyclic ==> DepsFirst(linker.ds)
      decreases keys
    {
      var k :| k in keys;
      keys := keys - {k};
      ghost var before := linker.ds;
      assert Elems([]) == {};
      ghost var emitted;
      var missing;
      missing, emitted := linker.Visit(all[k], all, [], acyclic);
      if missing.Some? {
        return Failure(missing.value);
      }
      DrawnFromMap(all, before, linker.ds, all[k]);
    }
    ClosedWhenAllEmitted(all, linker.ds);
    return Success(linker.ds);
  }

  /** Lines 180-198: collect the fetched files by name, then put them in linkage order. */
  method LinkOrder(fetched: seq<File>) returns (r: Result<seq<File>, string>)
    ensures r.Success? <==> Closed(Collected(fetched))
    ensures r.Failure? ==> (r.error !in Collected(fetched) &&
      exists k :: k in Collected(fetched) && r.error in Collected(fetched)[k].deps)
    ensures r.Success? ==> NoDupNames(r.value) && NameSet(r.value) == NameSet(fetched)
    ensures r.Success? ==> DrawnFrom(r.value, Collected(fetched))
    ensures r.Success? && Acyclic(Collected(fetched)) ==> DepsFirst(r.value)
  {
    var all := Collect(fetched);
    r := SortAll(all);
  }
}
