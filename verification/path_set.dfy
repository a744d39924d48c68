/**
 lodash `set` with a dot-delimited string path, the operation the
 SET_META_PROP handler applies to the meta state.

 The string is cut at every '.' (empty segments included, as lodash's
 `stringToPath` yields them). Walking the path, every intermediate node that
 is not an object is replaced by a fresh empty object; the last key is
 assigned the new value outright.
 */
module PathSet {
  import opened MetaValues

  /** The segments of a dotted path string: one more than it has dots, none
      containing a dot. */
  function SplitPath(s: string): (r: Path)
    ensures |r| >= 1
    ensures forall i :: 0 <= i < |r| ==> '.' !in r[i]
    decreases |s|
  {
    if |s| == 0 then [""]
    else
      var rest := SplitPath(s[1..]);
      if s[0] == '.' then [""] + rest
      else [[s[0]] + rest[0]] + rest[1..]
  }

  /** The dotted string of a sequence of segments. */
  function JoinPath(segs: Path): string
    requires |segs| >= 1
    decreases |segs|
  {
    if |segs| == 1 then segs[0] else segs[0] + "." + JoinPath(segs[1..])
  }

  /** Splitting loses nothing: joining the segments gives the string back. */
  lemma {:induction false} JoinSplit(s: string)
    ensures JoinPath(SplitPath(s)) == s
    decreases |s|
  {
    if |s| > 0 {
      var rest := SplitPath(s[1..]);
      JoinSplit(s[1..]);
      if s[0] == '.' {
        assert SplitPath(s)[1..] == rest;
        assert s == [s[0]] + s[1..];
      } else if |rest| == 1 {
        assert s == [s[0]] + s[1..];
      } else {
        assert SplitPath(s)[1..] == rest[1..];
        assert s == [s[0]] + s[1..];
      }
    }
  }

  /** The first segment is the prefix of the string up to its first dot,
      or the whole string when there is none. */
  lemma {:induction false} SplitFirstSegment(s: string)
    ensures |SplitPath(s)[0]| <= |s|
    ensures s[..|SplitPath(s)[0]|] == SplitPath(s)[0]
    ensures SplitPath(s)[0] == s || s[|SplitPath(s)[0]|] == '.'
    decreases |s|
  {
    if |s| > 0 {
      SplitFirstSegment(s[1..]);
    }
  }

  /** A string without dots is a single segment. */
  lemma {:induction false} SplitDotFree(a: string)
    requires '.' !in a
    ensures SplitPath(a) == [a]
    decreases |a|
  {
    if |a| > 0 {
      assert '.' !in a[1..] by {
        forall i | 0 <= i < |a[1..]| ensures a[1..][i] != '.' {
          assert a[1..][i] == a[i + 1];
        }
      }
      SplitDotFree(a[1..]);
      assert a == [a[0]] + a[1..];
    }
  }

  /** Splitting `a.b` splits `a` and `b` separately. */
  lemma {:induction false} SplitConcat(a: string, b: string)
    ensures SplitPath(a + "." + b) == SplitPath(a) + SplitPath(b)
    decreases |a|
  {
    var s := a + "." + b;
    if |a| == 0 {
      assert s[1..] == b;
    } else {
      assert s[0] == a[0];
      assert s[1..] == a[1..] + "." + b;
      SplitConcat(a[1..], b);
    }
  }

  /** Dot-free segments survive a join and a split unchanged. */
  lemma {:induction false} SplitJoin(segs: Path)
    requires |segs| >= 1
    requires forall i :: 0 <= i < |segs| ==> '.' !in segs[i]
    ensures SplitPath(JoinPath(segs)) == segs
    decreases |segs|
  {
    SplitDotFree(segs[0]);
    if |segs| > 1 {
      SplitJoin(segs[1..]);
      SplitConcat(segs[0], JoinPath(segs[1..]));
      assert segs == [segs[0]] + segs[1..];
    }
  }

  /** `root` with `x` stored at `path`, creating or replacing intermediates. */
  function SetPath(root: Val, path: Path, x: Val): (r: Val)
    requires |path| >= 1
    ensures r.Obj?
    ensures r.fields.Keys == FieldsOrEmpty(root).Keys + {path[0]}
    decreases |path|
  {
    var f := FieldsOrEmpty(root);
    if |path| == 1 then Obj(f[path[0] := x])
    else
      var child := if path[0] in f then f[path[0]] else EmptyObj;
      Obj(f[path[0] := SetPath(child, path[1..], x)])
  }

  /** One widget's properties with `x` stored at `path`. */
  function SetProps(props: Props, path: Path, x: Val): (r: Props)
    requires |path| >= 1
    ensures r.Keys == props.Keys + {path[0]}
    ensures forall k :: k in props && k != path[0] ==> r[k] == props[k]
  {
    SetPath(Obj(props), path, x).fields
  }

  /** After the set, the path leads to the new value. */
  lemma {:induction false} SetPathGet(root: Val, path: Path, x: Val)
    requires |path| >= 1
    ensures Get(SetPath(root, path, x), path) == Some(x)
    decreases |path|
  {
    if |path| > 1 {
      var f := FieldsOrEmpty(root);
      var child := if path[0] in f then f[path[0]] else EmptyObj;
      SetPathGet(child, path[1..], x);
    }
  }

  /** Create on demand: every proper prefix of the path leads to an object
      after the set, whatever was (or was not) there before. */
  lemma {:induction false} SetPathCreates(root: Val, path: Path, x: Val, i: nat)
    requires i < |path|
    ensures Get(SetPath(root, path, x), path[..i]).Some?
    ensures Get(SetPath(root, path, x), path[..i]).value.Obj?
    decreases i
  {
    if i > 0 {
      var f := FieldsOrEmpty(root);
      var child := if path[0] in f then f[path[0]] else EmptyObj;
      SetPathCreates(child, path[1..], x, i - 1);
      assert path[..i][0] == path[0];
      assert path[..i][1..] == path[1..][..i - 1];
    }
  }

  /** Below the set path the result holds exactly what `x` holds. */
  lemma SetPathBelow(root: Val, path: Path, x: Val, rest: Path)
    requires |path| >= 1
    ensures Get(SetPath(root, path, x), path + rest) == Get(x, rest)
  {
    SetPathGet(root, path, x);
    GetAppend(SetPath(root, path, x), path, rest);
  }

  /** Isolation: a path that parts ways with the set path keeps its value. */
  lemma {:induction false} SetPathDiverge(root: Val, path: Path, x: Val, q: Path)
    requires |path| >= 1
    requires Diverge(path, q)
    ensures Get(SetPath(root, path, x), q) == Get(root, q)
    decreases |path|
  {
    var f := FieldsOrEmpty(root);
    if path[0] == q[0] {
      var child := if path[0] in f then f[path[0]] else EmptyObj;
      SetPathDiverge(child, path[1..], x, q[1..]);
    }
  }

  /** The later of two sets to the same path wins outright. */
  lemma {:induction false} SetPathOverwrite(root: Val, path: Path, x: Val, y: Val)
    requires |path| >= 1
    ensures SetPath(SetPath(root, path, x), path, y) == SetPath(root, path, y)
    decreases |path|
  {
    var f := FieldsOrEmpty(root);
    var k := path[0];
    if |path| == 1 {
      assert f[k := x][k := y] == f[k := y];
    } else {
      var child := if k in f then f[k] else EmptyObj;
      var c1 := SetPath(child, path[1..], x);
      var f1 := f[k := c1];
      assert SetPath(root, path, x) == Obj(f1);
      assert SetPath(Obj(f1), path, y) == Obj(f1[k := SetPath(c1, path[1..], y)]);
      SetPathOverwrite(child, path[1..], x, y);
      assert f1[k := SetPath(child, path[1..], y)] == f[k := SetPath(child, path[1..], y)];
    }
  }

  /** Setting the same value twice is setting it once. */
  lemma SetPathIdempotent(root: Val, path: Path, x: Val)
    requires |path| >= 1
    ensures SetPath(SetPath(root, path, x), path, x) == SetPath(root, path, x)
  {
    SetPathOverwrite(root, path, x, x);
  }
}
