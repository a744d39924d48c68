/**
 lodash `merge` restricted to plain objects and scalars, the operation the
 UPDATE_META_STATE handler applies to the meta state.

 A scalar in the source overwrites the destination outright. An object in
 the source is merged key by key into the destination's object; when the
 destination holds no object there (the key is missing or holds a scalar),
 lodash starts from a fresh empty object and merges the source into it.
 */
module DeepMerge {
  import opened MetaValues

  function Merge(dst: Val, src: Val): (r: Val)
    ensures src.Leaf? ==> r == src
    ensures src.Obj? ==> r.Obj? && r.fields.Keys == FieldsOrEmpty(dst).Keys + src.fields.Keys
    ensures src.Obj? ==> forall k :: k in FieldsOrEmpty(dst) && k !in src.fields ==> r.fields[k] == dst.fields[k]
    decreases src
  {
    match src
    case Leaf(_) => src
    case Obj(sf) =>
      var df := FieldsOrEmpty(dst);
      Obj(map k | k in df.Keys + sf.Keys ::
            if k in sf then Merge(if k in df then df[k] else EmptyObj, sf[k]) else df[k])
  }

  /** Merge of two property objects (one widget's entry and its update). */
  function MergeProps(dst: Props, src: Props): (r: Props)
    ensures r.Keys == dst.Keys + src.Keys
    ensures forall k :: k in dst && k !in src ==> r[k] == dst[k]
    ensures forall k :: k in src ==> r[k] == Merge(if k in dst then dst[k] else EmptyObj, src[k])
  {
    Merge(Obj(dst), Obj(src)).fields
  }

  /** The value a merge finds at `path` in the destination: what is there, or
      a fresh empty object when nothing is. */
  function TargetAt(dst: Val, path: Path): Val
  {
    match Get(dst, path)
    case Some(v) => v
    case None => EmptyObj
  }

  /** Merging into nothing (an empty object or a scalar) yields the source
      itself: the fresh object lodash allocates ends up a deep copy. */
  lemma {:induction false} MergeIntoNothing(dst: Val, src: Val)
    requires FieldsOrEmpty(dst) == map[]
    ensures Merge(dst, src) == src
    decreases src
  {
    match src
    case Leaf(_) =>
    case Obj(sf) =>
      var r := Merge(dst, src);
      forall k | k in sf
        ensures r.fields[k] == sf[k]
      {
        MergeIntoNothing(EmptyObj, sf[k]);
      }
      assert r.fields == sf;
  }

  /** Merging the same source twice changes nothing the first merge did not. */
  lemma {:induction false} MergeIdempotent(dst: Val, src: Val)
    ensures Merge(Merge(dst, src), src) == Merge(dst, src)
    decreases src
  {
    match src
    case Leaf(_) =>
    case Obj(sf) =>
      var m := Merge(dst, src);
      var df := FieldsOrEmpty(dst);
      var r := Merge(m, src);
      forall k | k in r.fields
        ensures r.fields[k] == m.fields[k]
      {
        if k in sf {
          var dk := if k in df then df[k] else EmptyObj;
          assert m.fields[k] == Merge(dk, sf[k]);
          MergeIdempotent(dk, sf[k]);
        }
      }
      assert r.fields == m.fields;
  }

  /** A path the source does not reach: the walk down `src` along `path` meets
      a missing key while every node passed is an object. */
  predicate Untouched(src: Val, path: Path)
    decreases |path|
  {
    && |path| > 0
    && src.Obj?
    && (path[0] !in src.fields || Untouched(src.fields[path[0]], path[1..]))
  }

  /** A path that runs through a scalar of the source: the scalar replaces the
      whole subtree the path continues into. */
  predicate Overwritten(src: Val, path: Path)
    decreases |path|
  {
    && |path| > 0
    && (src.Leaf? || (path[0] in src.fields && Overwritten(src.fields[path[0]], path[1..])))
  }

  /** Every path is in exactly one of three positions relative to a source:
      untouched by it, present in it, or cut off by one of its scalars. */
  lemma {:induction false} PathPositions(src: Val, path: Path)
    ensures Untouched(src, path) || Get(src, path).Some? || Overwritten(src, path)
    ensures !(Untouched(src, path) && Get(src, path).Some?)
    ensures !(Untouched(src, path) && Overwritten(src, path))
    ensures !(Get(src, path).Some? && Overwritten(src, path))
    decreases |path|
  {
    if |path| > 0 && src.Obj? && path[0] in src.fields {
      PathPositions(src.fields[path[0]], path[1..]);
    }
  }

  /** Locality: a path the source does not reach keeps its value. */
  lemma {:induction false} MergeUntouched(dst: Val, src: Val, path: Path)
    requires Untouched(src, path)
    ensures Get(Merge(dst, src), path) == Get(dst, path)
    decreases |path|
  {
    var k := path[0];
    var df := FieldsOrEmpty(dst);
    if k in src.fields {
      var dk := if k in df then df[k] else EmptyObj;
      MergeUntouched(dk, src.fields[k], path[1..]);
    }
  }

  /** At a path present in the source, the result holds the source's value
      merged into whatever the destination had there. */
  lemma {:induction false} MergeReached(dst: Val, src: Val, path: Path)
    requires Get(src, path).Some?
    ensures Get(Merge(dst, src), path) == Some(Merge(TargetAt(dst, path), Get(src, path).value))
    decreases |path|
  {
    if |path| > 0 {
      var k := path[0];
      var df := FieldsOrEmpty(dst);
      var dk := if k in df then df[k] else EmptyObj;
      MergeReached(dk, src.fields[k], path[1..]);
      if k !in df {
        assert Get(dst, path) == None;
        if |path[1..]| > 0 {
          assert Get(EmptyObj, path[1..]) == None;
        }
        MergeIntoNothing(TargetAt(dk, path[1..]), Get(src, path).value);
        MergeIntoNothing(TargetAt(dst, path), Get(src, path).value);
      }
    }
  }

  /** Last writer wins at the leaves: every scalar of the source is found at
      its path after the merge. */
  lemma MergeLeafWins(dst: Val, src: Val, path: Path, x: Scalar)
    requires Get(src, path) == Some(Leaf(x))
    ensures Get(Merge(dst, src), path) == Some(Leaf(x))
  {
    MergeReached(dst, src, path);
  }

  /** A path running through a scalar of the source no longer exists. */
  lemma {:induction false} MergeOverwritten(dst: Val, src: Val, path: Path)
    requires Overwritten(src, path)
    ensures Get(Merge(dst, src), path) == None
    decreases |path|
  {
    if src.Obj? {
      var k := path[0];
      var df := FieldsOrEmpty(dst);
      var dk := if k in df then df[k] else EmptyObj;
      MergeOverwritten(dk, src.fields[k], path[1..]);
    }
  }
}
