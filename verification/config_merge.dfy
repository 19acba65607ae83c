/** The merge of two configuration trees, as a function of trees. */
module ConfigMerge {
  type Key = string

  /** A value of a configuration: a scalar or list, a nil map, or a map. */
  datatype Value = Leaf(text: string) | NilMap | Branch(entries: Dict)
  type Dict = map<Key, Value>

  predicate IsMap(v: Value) {
    !v.Leaf?
  }

  function Entries(v: Value): Dict {
    if v.Branch? then v.entries else map[]
  }

  /** Maps are merged, a nil map as if it were empty; anything else is replaced. */
  function MergeValue(a: Value, b: Value): Value
    decreases b, 1
  {
    if IsMap(a) && IsMap(b) then Branch(Merge(Entries(a), b)) else b
  }

  /** The entries of src put over those of dst. */
  function Merge(dst: Dict, src: Value): Dict
    decreases src, 0
  {
    map k | k in dst.Keys + Entries(src).Keys ::
      if k !in Entries(src) then dst[k] else if k !in dst then src.entries[k] else MergeValue(dst[k], src.entries[k])
  }

  /** A nil map anywhere in a value. */
  predicate HasNil(v: Value)
    decreases v
  {
    v.NilMap? || (v.Branch? && exists k :: k in v.entries && HasNil(v.entries[k]))
  }

  /** The merge takes a nil map over from the source. */
  predicate TakesNil(dst: Dict, src: Value)
    decreases src, 0
  {
    src.Branch? && exists k :: k in src.entries && TakesNilAt(dst, src, k)
  }

  predicate TakesNilAt(dst: Dict, src: Value, k: Key)
    requires src.Branch? && k in src.entries
    decreases src.entries[k], 1
  {
    if k in dst && IsMap(dst[k]) && IsMap(src.entries[k]) then TakesNil(Entries(dst[k]), src.entries[k])
    else HasNil(src.entries[k])
  }

  lemma {:induction false} MergeSelf(v: Value)
    requires v.Branch?
    ensures Merge(v.entries, v) == v.entries <==> !HasNil(v)
    decreases v
  {
    var d, m := v.entries, Merge(v.entries, v);
    forall k | k in d ensures m[k] == d[k] <==> !HasNil(d[k]) {
      assert m[k] == MergeValue(d[k], d[k]);
      if d[k].Branch? {
        MergeSelf(d[k]);
        assert m[k].entries == Merge(d[k].entries, d[k]);
      }
    }
    SameDicts(m, d);
  }

  // ---------- Where the entries of a merge come from ----------

  /** What stands at a path of keys: nothing, a scalar or list, or a map. */
  datatype Shape = NothingThere | TextThere(text: string) | MapThere

  function ShapeAt(v: Value, path: seq<Key>): Shape {
    if path == [] then (if v.Leaf? then TextThere(v.text) else MapThere)
    else if path[0] in Entries(v) then ShapeAt(Entries(v)[path[0]], path[1..])
    else NothingThere
  }

  /** The source has a say at the path: something stands there, or a scalar on the way. */
  predicate Decides(src: Value, path: seq<Key>) {
    if path == [] then true
    else src.Leaf? || (path[0] in Entries(src) && Decides(Entries(src)[path[0]], path[1..]))
  }

  /** At every path of a merge stands what the source has there, if it has a say, and otherwise what was there before. */
  lemma {:induction false} MergeTakes(dst: Dict, src: Value, path: seq<Key>)
    requires IsMap(src)
    ensures ShapeAt(Branch(Merge(dst, src)), path) == if Decides(src, path) then ShapeAt(src, path) else ShapeAt(Branch(dst), path)
    decreases |path|
  {
    if path != [] && path[0] in Entries(src) && path[0] in dst {
      var a, b, rest := dst[path[0]], Entries(src)[path[0]], path[1..];
      if IsMap(a) && IsMap(b) {
        MergeTakes(Entries(a), b, rest);
        SameShapes(a, rest);
      } else if !Decides(b, rest) {
        NotDecided(b, rest);
      }
    } else if path != [] && path[0] in Entries(src) {
      if !Decides(Entries(src)[path[0]], path[1..]) { NotDecided(Entries(src)[path[0]], path[1..]); }
    }
  }

  lemma SameShapes(a: Value, path: seq<Key>)
    requires IsMap(a)
    ensures ShapeAt(Branch(Entries(a)), path) == ShapeAt(a, path)
  {
  }

  lemma {:induction false} NotDecided(v: Value, path: seq<Key>)
    requires !Decides(v, path)
    ensures ShapeAt(v, path) == NothingThere
    decreases |path|
  {
    if path[0] in Entries(v) { NotDecided(Entries(v)[path[0]], path[1..]); }
  }

  lemma SameDicts(a: Dict, b: Dict)
    requires a.Keys == b.Keys
    ensures a == b <==> forall k :: k in a ==> a[k] == b[k]
  {
  }

  lemma {:induction false} MergeTwiceAt(dst: Dict, src: Value, k: Key)
    requires src.Branch? && k in src.entries
    ensures Merge(Merge(dst, src), src)[k] == Merge(dst, src)[k] <==> !TakesNilAt(dst, src, k)
    decreases src.entries[k], 1
  {
    var v := src.entries[k];
    if k in dst && IsMap(dst[k]) && IsMap(v) {
      MergeTwice(Entries(dst[k]), v);
    } else if v.Branch? {
      MergeSelf(v);
    }
  }

  /** Merging the same source again changes nothing - if and only if the first merge took no nil map over, which the
      second then finds and makes an empty map. */
  lemma {:induction false} MergeTwice(dst: Dict, src: Value)
    ensures Merge(Merge(dst, src), src) == Merge(dst, src) <==> !TakesNil(dst, src)
    decreases src, 0
  {
    var once := Merge(dst, src);
    var twice := Merge(once, src);
    forall k | k in Entries(src) ensures twice[k] == once[k] <==> !TakesNilAt(dst, src, k) {
      MergeTwiceAt(dst, src, k);
    }
    SameDicts(twice, once);
  }
}
