/**
 * The few functions of Go's `strings` package that the bridge's startup code
 * relies on, over `string` = `seq<char>`. Each is characterised by its
 * contract rather than by the library's implementation.
 */
module Strings {

  /** Index of the first `c` in `s`, or `|s|` when `s` has none (strings.IndexByte). */
  function IndexOf(s: string, c: char): (i: nat)
    ensures i <= |s|
    ensures i < |s| ==> s[i] == c
    ensures c !in s[..i]
    ensures i == |s| <==> c !in s
  {
    if s == [] then 0
    else if s[0] == c then 0
    else
      var j := IndexOf(s[1..], c);
      assert s[..1 + j] == [s[0]] + s[1..][..j];
      1 + j
  }

  datatype CutResult = CutResult(before: string, after: string, found: bool)

  /**
   * strings.Cut: split `s` around the FIRST `sep`. When there is none the
   * whole of `s` is `before`, `after` is empty and `found` is false.
   */
  function Cut(s: string, sep: char): (r: CutResult)
    ensures r.found <==> sep in s
    ensures r.found ==> s == r.before + [sep] + r.after && sep !in r.before
    ensures !r.found ==> r.before == s && r.after == ""
  {
    var i := IndexOf(s, sep);
    if i < |s| then
      assert s == s[..i] + [sep] + s[i + 1..];
      CutResult(s[..i], s[i + 1..], true)
    else CutResult(s, "", false)
  }

  /** strings.TrimLeft with a one-character cutset: drop every leading `c`. */
  function TrimLeft(s: string, c: char): (r: string)
    ensures |r| <= |s| && r == s[|s| - |r|..]
    ensures forall i :: 0 <= i < |s| - |r| ==> s[i] == c
    ensures r == [] || r[0] != c
  {
    if s != [] && s[0] == c then TrimLeft(s[1..], c) else s
  }

  /** unicode.IsSpace: the characters strings.TrimSpace removes. */
  predicate IsSpace(c: char)
  {
    c == ' ' || c == '\t' || c == '\n' || c == '\r' || c == '\U{000B}' || c == '\U{000C}'
    || c == '\U{0085}' || c == '\U{00A0}' || c == '\U{1680}'
    || ('\U{2000}' <= c <= '\U{200A}')
    || c == '\U{2028}' || c == '\U{2029}' || c == '\U{202F}' || c == '\U{205F}' || c == '\U{3000}'
  }

  predicate AllSpace(s: string)
  {
    forall i :: 0 <= i < |s| ==> IsSpace(s[i])
  }

  function TrimLeftSpace(s: string): (r: string)
    ensures |r| <= |s| && r == s[|s| - |r|..]
    ensures AllSpace(s[..|s| - |r|])
    ensures r == [] || !IsSpace(r[0])
  {
    if s != [] && IsSpace(s[0]) then
      var r := TrimLeftSpace(s[1..]);
      assert s[..|s| - |r|] == [s[0]] + s[1..][..|s| - 1 - |r|];
      r
    else s
  }

  function TrimRightSpace(s: string): (r: string)
    ensures |r| <= |s| && r == s[..|r|]
    ensures AllSpace(s[|r|..])
    ensures r == [] || !IsSpace(r[|r| - 1])
  {
    if s != [] && IsSpace(s[|s| - 1]) then
      var r := TrimRightSpace(s[..|s| - 1]);
      assert s[|r|..] == s[..|s| - 1][|r|..] + [s[|s| - 1]];
      r
    else s
  }

  /**
   * strings.TrimSpace: `s` is some white space, the result, and some white
   * space, and the result neither starts nor ends with white space.
   */
  function TrimSpace(s: string): (r: string)
    ensures exists pre, post :: s == pre + r + post && AllSpace(pre) && AllSpace(post)
    ensures r == [] || (!IsSpace(r[0]) && !IsSpace(r[|r| - 1]))
  {
    var l := TrimLeftSpace(s);
    var r := TrimRightSpace(l);
    TrimParts(s, l, r);
    r
  }

  lemma TrimParts(s: string, l: string, r: string)
    requires |l| <= |s| && l == s[|s| - |l|..] && AllSpace(s[..|s| - |l|])
    requires |r| <= |l| && r == l[..|r|] && AllSpace(l[|r|..])
    requires l == [] || !IsSpace(l[0])
    requires r == [] || !IsSpace(r[|r| - 1])
    ensures exists pre, post :: s == pre + r + post && AllSpace(pre) && AllSpace(post)
    ensures r == [] || (!IsSpace(r[0]) && !IsSpace(r[|r| - 1]))
  {
    var pre, post := s[..|s| - |l|], l[|r|..];
    assert s == pre + l && l == r + post;
    assert s == pre + r + post;
    assert AllSpace(pre) && AllSpace(post);
    assert r != [] ==> r[0] == l[0];
  }

  /**
   * strings.Join: the parts in order with `sep` between neighbours. No parts
   * give the empty string and one part is returned as it is.
   */
  function Join(parts: seq<string>, sep: string): (r: string)
    ensures parts == [] ==> r == ""
    ensures |parts| == 1 ==> r == parts[0]
    ensures |parts| >= 1 ==> |parts[0]| <= |r| && r[..|parts[0]|] == parts[0]
  {
    if parts == [] then ""
    else if |parts| == 1 then parts[0]
    else parts[0] + sep + Join(parts[1..], sep)
  }

  /** Appending a part to a non-empty list appends the separator and that part. */
  lemma {:induction false} JoinSnoc(parts: seq<string>, x: string, sep: string)
    requires |parts| >= 1
    ensures Join(parts + [x], sep) == Join(parts, sep) + sep + x
    decreases |parts|
  {
    if |parts| == 1 {
      assert parts + [x] == [parts[0], x];
      assert [parts[0], x][1..] == [x];
    } else {
      assert (parts + [x])[1..] == parts[1..] + [x];
      JoinSnoc(parts[1..], x, sep);
    }
  }

  /**
   * strings.Split with a one-character separator: the pieces between the
   * separators, so that joining them back gives `s` again; an empty `s`
   * gives one empty piece.
   */
  function Split(s: string, sep: char): (parts: seq<string>)
    ensures |parts| >= 1
    ensures Join(parts, [sep]) == s
    ensures forall p :: p in parts ==> sep !in p
    decreases |s|
  {
    var c := Cut(s, sep);
    if c.found then
      var rest := Split(c.after, sep);
      assert ([c.before] + rest)[1..] == rest;
      [c.before] + rest
    else [s]
  }

  /** Splitting joined pieces that contain no separator gives the pieces back. */
  lemma {:induction false} SplitJoin(parts: seq<string>, sep: char)
    requires |parts| >= 1
    requires forall p :: p in parts ==> sep !in p
    ensures Split(Join(parts, [sep]), sep) == parts
  {
    if |parts| > 1 {
      var rest := parts[1..];
      assert forall p :: p in rest ==> p in parts;
      SplitJoin(rest, sep);
      var s := Join(parts, [sep]);
      assert s == parts[0] + [sep] + Join(rest, [sep]);
      var c := Cut(s, sep);
      assert sep !in parts[0];
      CutUnique(parts[0], Join(rest, [sep]), sep);
      assert c.before == parts[0] && c.after == Join(rest, [sep]);
    } else {
      assert Join(parts, [sep]) == parts[0];
      assert sep !in parts[0];
    }
  }

  /** The first separator of `a + [sep] + b` is the one after `a` when `a` has none. */
  lemma CutUnique(a: string, b: string, sep: char)
    requires sep !in a
    ensures Cut(a + [sep] + b, sep) == CutResult(a, b, true)
  {
    var s := a + [sep] + b;
    assert s[|a|] == sep;
    var i := IndexOf(s, sep);
    assert s[..|a|] == a;
    assert i == |a|;
    assert s[i + 1..] == b;
  }

  /** strings.ReplaceAll with one character replaced by another. */
  function ReplaceAll(s: string, from: char, to: char): (r: string)
    ensures |r| == |s|
    ensures forall i :: 0 <= i < |s| ==> r[i] == if s[i] == from then to else s[i]
  {
    if s == [] then [] else [if s[0] == from then to else s[0]] + ReplaceAll(s[1..], from, to)
  }

  /** A string without `from` is left as it is. */
  lemma ReplaceAllUntouched(s: string, from: char, to: char)
    requires from !in s
    ensures ReplaceAll(s, from, to) == s
  {
    var r := ReplaceAll(s, from, to);
    forall i | 0 <= i < |s| ensures r[i] == s[i] {
      assert s[i] in s;
    }
  }

  /** Replacing characters one for one commutes with concatenation. */
  lemma ReplaceAllConcat(a: string, b: string, from: char, to: char)
    ensures ReplaceAll(a + b, from, to) == ReplaceAll(a, from, to) + ReplaceAll(b, from, to)
  {
    var l := ReplaceAll(a + b, from, to);
    var r := ReplaceAll(a, from, to) + ReplaceAll(b, from, to);
    assert |l| == |r|;
    forall i | 0 <= i < |l| ensures l[i] == r[i] {
      if i < |a| {
        assert (a + b)[i] == a[i];
      } else {
        assert (a + b)[i] == b[i - |a|];
      }
    }
  }
}
