/**
 * Descriptor files as the bridge sees them: a file has a path-like name, the
 * names of the files it imports, and its services; a service has a fully
 * qualified name and its methods; a method carries its input and output
 * message names, its two streaming flags and the comments attached to it in
 * the file's source information.
 */
module Descriptors {

  datatype Method = Method(
    name: string,
    input: string,
    output: string,
    clientStreaming: bool,
    serverStreaming: bool,
    leadingComments: string,
    trailingComments: string)

  datatype Service = Service(fullName: string, methods: seq<Method>)

  datatype File = File(name: string, deps: seq<string>, services: seq<Service>)

  /** The names of the files in `fs`. */
  function NameSet(fs: seq<File>): set<string>
  {
    set f | f in fs :: f.name
  }

  /** No name occurs twice in `fs`. */
  predicate NoDupNames(fs: seq<File>)
  {
    forall i, j :: 0 <= i < j < |fs| ==> fs[i].name != fs[j].name
  }

  /** Linkage order: every import of a file names a file earlier in `fs`. */
  predicate DepsFirst(fs: seq<File>)
  {
    forall i :: 0 <= i < |fs| ==> forall dep :: dep in fs[i].deps ==> dep in NameSet(fs[..i])
  }

  /** Every file emitted imports only names that `all` holds. */
  predicate DepsPresent(fs: seq<File>, all: map<string, File>)
  {
    forall f :: f in fs ==> forall dep :: dep in f.deps ==> dep in all
  }

  /** The map holds each file under its own name. */
  predicate KeyedByName(all: map<string, File>)
  {
    forall k :: k in all ==> all[k].name == k
  }

  /** Every import of every file of `all` is itself in `all`. */
  predicate Closed(all: map<string, File>)
  {
    forall k :: k in all ==> forall dep :: dep in all[k].deps ==> dep in all
  }

  /** `p` follows import edges: each name is a file of `all` importing the next. */
  ghost predicate IsDepPath(all: map<string, File>, p: seq<string>)
  {
    |p| < 2 || (p[0] in all && p[1] in all[p[0]].deps && IsDepPath(all, p[1..]))
  }

  /** No chain of one or more imports leads from a file back to itself. */
  ghost predicate Acyclic(all: map<string, File>)
  {
    forall p :: IsDepPath(all, p) && |p| >= 2 ==> p[0] != p[|p| - 1]
  }

  lemma NameSetAppend(a: seq<File>, b: seq<File>)
    ensures NameSet(a + b) == NameSet(a) + NameSet(b)
  {
    forall n | n in NameSet(a + b) ensures n in NameSet(a) + NameSet(b) {
      var f :| f in a + b && f.name == n;
    }
  }

  lemma NoDupAppend(fs: seq<File>, f: File)
    requires NoDupNames(fs) && f.name !in NameSet(fs)
    ensures NoDupNames(fs + [f])
    ensures NameSet(fs + [f]) == NameSet(fs) + {f.name}
  {
    NameSetAppend(fs, [f]);
    var g := fs + [f];
    forall i, j | 0 <= i < j < |g| ensures g[i].name != g[j].name {
      if j == |fs| {
        assert g[i] in fs;
      }
    }
  }

  /** Without duplicate names, no file's name occurs among the files before it. */
  lemma NoDupFresh(fs: seq<File>, i: int)
    requires NoDupNames(fs) && 0 <= i < |fs|
    ensures fs[i].name !in NameSet(fs[..i])
  {
    forall g | g in fs[..i] ensures g.name != fs[i].name {
      var x :| 0 <= x < i && fs[..i][x] == g;
      assert fs[x] == g;
    }
  }

  lemma DepsFirstAppend(fs: seq<File>, f: File)
    requires DepsFirst(fs)
    requires forall dep :: dep in f.deps ==> dep in NameSet(fs)
    ensures DepsFirst(fs + [f])
  {
    var g := fs + [f];
    forall i | 0 <= i < |g| ensures forall dep :: dep in g[i].deps ==> dep in NameSet(g[..i]) {
      if i < |fs| {
        assert g[..i] == fs[..i];
      } else {
        assert g[..i] == fs;
      }
    }
  }

  /** In an acyclic map, a file at the end of an import chain imports nothing on that chain. */
  lemma {:induction false} AcyclicNotOnPath(all: map<string, File>, p: seq<string>, dep: string)
    requires Acyclic(all) && IsDepPath(all, p) && |p| > 0
    requires p[|p| - 1] in all && dep in all[p[|p| - 1]].deps
    ensures dep !in p
  {
    forall j | 0 <= j < |p| ensures p[j] != dep {
      PathSuffix(all, p, j);
      PathExtend(all, p[j..], dep);
      var q := p[j..] + [dep];
      assert |q| >= 2 && q[0] == p[j] && q[|q| - 1] == dep;
    }
  }

  lemma {:induction false} PathSuffix(all: map<string, File>, p: seq<string>, j: nat)
    requires IsDepPath(all, p) && j <= |p|
    ensures IsDepPath(all, p[j..])
  {
    if j > 0 {
      PathSuffix(all, p[1..], j - 1);
      assert p[1..][j - 1..] == p[j..];
    }
  }

  lemma {:induction false} PathExtend(all: map<string, File>, p: seq<string>, next: string)
    requires IsDepPath(all, p) && |p| > 0
    requires p[|p| - 1] in all && next in all[p[|p| - 1]].deps
    ensures IsDepPath(all, p + [next])
  {
    var q := p + [next];
    if |p| > 1 {
      PathExtend(all, p[1..], next);
      assert q[1..] == p[1..] + [next];
    }
  }
}
