/** The merge as it is done: in place, over map objects that refer to one another. */
module ConfigHeap {
  import opened ConfigMerge

  type Addr = nat

  /** What a map object holds under a key: a scalar, a nil map, or another map object. */
  datatype Cell = Scalar(text: string) | Nil | Ref(addr: Addr)
  type Store = map<Addr, map<Key, Cell>>

  /** The cell holds the value, map object by map object. */
  predicate Shows(st: Store, c: Cell, v: Value)
    decreases v
  {
    match v
    case Leaf(text) => c == Scalar(text)
    case NilMap => c == Nil
    case Branch(entries) =>
      c.Ref? && c.addr in st && st[c.addr].Keys == entries.Keys && forall k :: k in entries ==> Shows(st, st[c.addr][k], entries[k])
  }

  /** The map objects that are reached. */
  function Foot(st: Store, c: Cell, v: Value): set<Addr>
    requires Shows(st, c, v)
    decreases v
  {
    if v.Branch? then {c.addr} + set k, a | k in v.entries && a in Foot(st, st[c.addr][k], v.entries[k]) :: a else {}
  }

  function ChildFoot(st: Store, c: Cell, v: Value, k: Key): set<Addr>
    requires Shows(st, c, v) && v.Branch? && k in v.entries
  {
    Foot(st, st[c.addr][k], v.entries[k])
  }

  /** No map object is reached in two ways. */
  predicate Apart(st: Store, c: Cell, v: Value)
    requires Shows(st, c, v)
    decreases v
  {
    v.Branch? ==>
      && (forall k :: k in v.entries ==> c.addr !in ChildFoot(st, c, v, k) && Apart(st, st[c.addr][k], v.entries[k]))
      && forall j, k :: j in v.entries && k in v.entries && j != k ==> ChildFoot(st, c, v, j) !! ChildFoot(st, c, v, k)
  }

  predicate Agree(st: Store, to: Store, on: set<Addr>) {
    forall a :: a in on && a in st ==> a in to && to[a] == st[a]
  }

  lemma ChildInFoot(st: Store, c: Cell, v: Value, k: Key)
    requires Shows(st, c, v) && v.Branch? && k in v.entries
    ensures ChildFoot(st, c, v, k) <= Foot(st, c, v)
  {
  }

  lemma {:induction false} FootAllocated(st: Store, c: Cell, v: Value)
    requires Shows(st, c, v)
    ensures Foot(st, c, v) <= st.Keys
    decreases v
  {
    if v.Branch? {
      forall k | k in v.entries ensures ChildFoot(st, c, v, k) <= st.Keys {
        FootAllocated(st, st[c.addr][k], v.entries[k]);
      }
    }
  }

  /** What is not touched stays. */
  lemma {:induction false} Framed(st: Store, to: Store, c: Cell, v: Value)
    requires Shows(st, c, v) && Agree(st, to, Foot(st, c, v))
    ensures Shows(to, c, v) && Foot(to, c, v) == Foot(st, c, v)
    ensures Apart(st, c, v) ==> Apart(to, c, v)
    decreases v
  {
    if v.Branch? {
      forall k | k in v.entries
        ensures Shows(to, st[c.addr][k], v.entries[k]) && Foot(to, st[c.addr][k], v.entries[k]) == ChildFoot(st, c, v, k)
        ensures Apart(st, c, v) ==> Apart(to, st[c.addr][k], v.entries[k])
      {
        ChildInFoot(st, c, v, k);
        Framed(st, to, st[c.addr][k], v.entries[k]);
      }
      assert to[c.addr] == st[c.addr];
    }
  }

  // ---------- Setting one entry ----------

  function Put(st: Store, dst: Addr, k: Key, cell: Cell): Store
    requires dst in st
  {
    st[dst := st[dst][k := cell]]
  }

  /** The map objects below the entry k, if there is one. */
  function Under(st: Store, c: Cell, v: Value, k: Key): set<Addr>
    requires Shows(st, c, v) && v.Branch?
  {
    if k in v.entries then ChildFoot(st, c, v, k) else {}
  }

  /** Between st and mid nothing of the map object at dst is touched but what is under k. */
  predicate TouchesOnly(st: Store, mid: Store, dst: Addr, v: Value, k: Key)
    requires Shows(st, Ref(dst), v) && v.Branch?
  {
    st.Keys <= mid.Keys && Agree(st, mid, Foot(st, Ref(dst), v) - Under(st, Ref(dst), v, k))
  }

  /** The cell can take the place of the entry k. */
  predicate Replaces(st: Store, mid: Store, dst: Addr, v: Value, k: Key, cell: Cell, w: Value)
    requires Shows(st, Ref(dst), v) && v.Branch?
  {
    && Shows(mid, cell, w) && Apart(mid, cell, w)
    && Foot(mid, cell, w) !! (Foot(st, Ref(dst), v) - Under(st, Ref(dst), v, k))
  }

  lemma OtherChild(st: Store, mid: Store, dst: Addr, v: Value, k: Key, cell: Cell, w: Value, j: Key)
    requires v.Branch? && Shows(st, Ref(dst), v) && Apart(st, Ref(dst), v)
    requires TouchesOnly(st, mid, dst, v, k) && Replaces(st, mid, dst, v, k, cell, w) && j in v.entries && j != k
    ensures dst in mid && mid[dst] == st[dst]
    ensures var to, c := Put(mid, dst, k, cell), st[dst][j];
      && Shows(to, c, v.entries[j]) && Apart(to, c, v.entries[j]) && Foot(to, c, v.entries[j]) == ChildFoot(st, Ref(dst), v, j)
      && Foot(mid, cell, w) !! ChildFoot(st, Ref(dst), v, j)
  {
    ChildInFoot(st, Ref(dst), v, j);
    Framed(st, Put(mid, dst, k, cell), st[dst][j], v.entries[j]);
  }

  lemma NewChild(st: Store, mid: Store, dst: Addr, v: Value, k: Key, cell: Cell, w: Value)
    requires v.Branch? && Shows(st, Ref(dst), v) && Apart(st, Ref(dst), v)
    requires TouchesOnly(st, mid, dst, v, k) && Replaces(st, mid, dst, v, k, cell, w)
    ensures dst in mid && mid[dst] == st[dst] && dst !in Foot(mid, cell, w)
    ensures var to := Put(mid, dst, k, cell);
      Shows(to, cell, w) && Apart(to, cell, w) && Foot(to, cell, w) == Foot(mid, cell, w)
  {
    assert dst in Foot(st, Ref(dst), v) - Under(st, Ref(dst), v, k);
    Framed(mid, Put(mid, dst, k, cell), cell, w);
  }

  /** What stands under j once the entry k is set. */
  predicate ChildSet(st: Store, mid: Store, dst: Addr, v: Value, k: Key, cell: Cell, w: Value, j: Key)
    requires v.Branch? && Shows(st, Ref(dst), v) && Shows(mid, cell, w) && dst in mid && mid[dst] == st[dst]
    requires j in v.entries || j == k
  {
    var to, e := Put(mid, dst, k, cell), if j == k then w else v.entries[j];
    && Shows(to, to[dst][j], e) && Apart(to, to[dst][j], e)
    && Foot(to, to[dst][j], e) == (if j == k then Foot(mid, cell, w) else ChildFoot(st, Ref(dst), v, j))
    && (j != k ==> Foot(mid, cell, w) !! ChildFoot(st, Ref(dst), v, j))
  }

  lemma EachChildSet(st: Store, mid: Store, dst: Addr, v: Value, k: Key, cell: Cell, w: Value)
    requires v.Branch? && Shows(st, Ref(dst), v) && Apart(st, Ref(dst), v)
    requires TouchesOnly(st, mid, dst, v, k) && Replaces(st, mid, dst, v, k, cell, w)
    ensures dst in mid && mid[dst] == st[dst] && dst !in Foot(mid, cell, w)
    ensures forall j :: j in v.entries || j == k ==> ChildSet(st, mid, dst, v, k, cell, w, j)
  {
    NewChild(st, mid, dst, v, k, cell, w);
    forall j | j in v.entries || j == k ensures ChildSet(st, mid, dst, v, k, cell, w, j) {
      if j != k { OtherChild(st, mid, dst, v, k, cell, w, j); }
    }
  }

  lemma SetShows(st: Store, mid: Store, dst: Addr, v: Value, k: Key, cell: Cell, w: Value)
    requires v.Branch? && Shows(st, Ref(dst), v) && Shows(mid, cell, w) && dst in mid && mid[dst] == st[dst]
    requires forall j :: j in v.entries || j == k ==> ChildSet(st, mid, dst, v, k, cell, w, j)
    ensures Shows(Put(mid, dst, k, cell), Ref(dst), Branch(v.entries[k := w]))
  {
    var to, d := Put(mid, dst, k, cell), Branch(v.entries[k := w]);
    forall j | j in d.entries ensures Shows(to, to[dst][j], d.entries[j]) {
      assert ChildSet(st, mid, dst, v, k, cell, w, j);
    }
  }

  lemma SetApart(st: Store, mid: Store, dst: Addr, v: Value, k: Key, cell: Cell, w: Value)
    requires v.Branch? && Shows(st, Ref(dst), v) && Apart(st, Ref(dst), v) && Shows(mid, cell, w) && dst in mid && mid[dst] == st[dst]
    requires dst !in Foot(mid, cell, w) && Shows(Put(mid, dst, k, cell), Ref(dst), Branch(v.entries[k := w]))
    requires forall j :: j in v.entries || j == k ==> ChildSet(st, mid, dst, v, k, cell, w, j)
    ensures Apart(Put(mid, dst, k, cell), Ref(dst), Branch(v.entries[k := w]))
  {
    var to, d := Put(mid, dst, k, cell), Branch(v.entries[k := w]);
    forall j | j in d.entries
      ensures Apart(to, to[dst][j], d.entries[j]) && dst !in ChildFoot(to, Ref(dst), d, j)
      ensures ChildFoot(to, Ref(dst), d, j) == if j == k then Foot(mid, cell, w) else ChildFoot(st, Ref(dst), v, j)
    {
      assert ChildSet(st, mid, dst, v, k, cell, w, j);
    }
    forall i, j | i in d.entries && j in d.entries && i != j ensures ChildFoot(to, Ref(dst), d, i) !! ChildFoot(to, Ref(dst), d, j) {
      assert ChildSet(st, mid, dst, v, k, cell, w, i) && ChildSet(st, mid, dst, v, k, cell, w, j);
    }
  }

  lemma SetFoot(st: Store, mid: Store, dst: Addr, v: Value, k: Key, cell: Cell, w: Value)
    requires v.Branch? && Shows(st, Ref(dst), v) && Apart(st, Ref(dst), v) && Shows(mid, cell, w) && dst in mid && mid[dst] == st[dst]
    requires Shows(Put(mid, dst, k, cell), Ref(dst), Branch(v.entries[k := w]))
    requires forall j :: j in v.entries || j == k ==> ChildSet(st, mid, dst, v, k, cell, w, j)
    ensures Foot(Put(mid, dst, k, cell), Ref(dst), Branch(v.entries[k := w]))
      <= (Foot(st, Ref(dst), v) - Under(st, Ref(dst), v, k)) + Foot(mid, cell, w)
  {
    forall j | j in v.entries && j != k ensures ChildFoot(st, Ref(dst), v, j) !! Under(st, Ref(dst), v, k) {
    }
  }

  /** One entry set: the rest of the tree stays, and stays apart. */
  lemma EntrySet(st: Store, mid: Store, dst: Addr, v: Value, k: Key, cell: Cell, w: Value)
    requires v.Branch? && Shows(st, Ref(dst), v) && Apart(st, Ref(dst), v)
    requires TouchesOnly(st, mid, dst, v, k) && Replaces(st, mid, dst, v, k, cell, w)
    ensures dst in mid
    ensures var to, d := Put(mid, dst, k, cell), Branch(v.entries[k := w]);
      && Shows(to, Ref(dst), d) && Apart(to, Ref(dst), d)
      && Foot(to, Ref(dst), d) <= (Foot(st, Ref(dst), v) - Under(st, Ref(dst), v, k)) + Foot(mid, cell, w)
  {
    EachChildSet(st, mid, dst, v, k, cell, w);
    SetShows(st, mid, dst, v, k, cell, w);
    SetApart(st, mid, dst, v, k, cell, w);
    SetFoot(st, mid, dst, v, k, cell, w);
  }

  // ---------- Copying ----------

  /** The first entries of a map that is being copied. */
  function Part(d: Dict, left: set<Key>): Dict {
    map k | k in d.Keys - left :: d[k]
  }

  /** A copy in progress: new map objects only, the old ones as they were. */
  ghost predicate Copying(s0: Store, st: Store, c: Cell, v: Value, out: Addr, left: set<Key>) {
    && v.Branch? && Shows(s0, c, v) && left <= v.entries.Keys && s0.Keys <= st.Keys && Agree(s0, st, s0.Keys)
    && Shows(st, Ref(out), Branch(Part(v.entries, left))) && Apart(st, Ref(out), Branch(Part(v.entries, left)))
    && Foot(st, Ref(out), Branch(Part(v.entries, left))) !! s0.Keys
  }

  lemma CopyStart(s0: Store, st: Store, c: Cell, v: Value, out: Addr)
    requires v.Branch? && Shows(s0, c, v) && out !in s0 && st == s0[out := map[]]
    ensures Copying(s0, st, c, v, out, v.entries.Keys)
  {
    assert Part(v.entries, v.entries.Keys) == map[];
  }

  lemma CopyDone(s0: Store, st: Store, c: Cell, v: Value, out: Addr)
    requires Copying(s0, st, c, v, out, {})
    ensures Shows(st, Ref(out), v) && Apart(st, Ref(out), v) && Foot(st, Ref(out), v) !! s0.Keys
  {
    assert Part(v.entries, {}) == v.entries;
  }

  lemma CopyReady(s0: Store, st: Store, c: Cell, v: Value, out: Addr, left: set<Key>, k: Key)
    requires Copying(s0, st, c, v, out, left) && k in left
    ensures k in s0[c.addr] && Shows(st, s0[c.addr][k], v.entries[k])
  {
    FootAllocated(s0, s0[c.addr][k], v.entries[k]);
    Framed(s0, st, s0[c.addr][k], v.entries[k]);
  }

  lemma CopyStep(s0: Store, st: Store, mid: Store, c: Cell, v: Value, out: Addr, left: set<Key>, k: Key, cell: Cell)
    requires Copying(s0, st, c, v, out, left) && k in left
    requires st.Keys <= mid.Keys && Agree(st, mid, st.Keys)
    requires Shows(mid, cell, v.entries[k]) && Apart(mid, cell, v.entries[k]) && Foot(mid, cell, v.entries[k]) !! st.Keys
    ensures out in mid && Copying(s0, Put(mid, out, k, cell), c, v, out, left - {k})
  {
    var part := Branch(Part(v.entries, left));
    FootAllocated(st, Ref(out), part);
    EntrySet(st, mid, out, part, k, cell, v.entries[k]);
    assert part.entries[k := v.entries[k]] == Part(v.entries, left - {k});
    assert out !in s0;
  }

  // ---------- Merging ----------

  /** dst with the entries of src that are done. */
  function Partial(dst: Dict, src: Value, left: set<Key>): Dict {
    map k | k in dst.Keys + (Entries(src).Keys - left) :: if k in Entries(src).Keys - left then Merge(dst, src)[k] else dst[k]
  }

  /** What a merge may start from: two trees without common map objects. A merge that aliases needs the source to be
      a tree too. */
  predicate Mergeable(st: Store, dst: Addr, v: Value, src: Cell, u: Value, copy: bool) {
    && v.Branch? && IsMap(u) && Shows(st, Ref(dst), v) && Apart(st, Ref(dst), v) && Shows(st, src, u)
    && (!copy ==> Apart(st, src, u)) && Foot(st, Ref(dst), v) !! Foot(st, src, u)
  }

  /** What may belong to dst in the end: what did, new map objects, and - unless they are copied - those of src. */
  function Reachable(s0: Store, st: Store, dst: Addr, v: Value, src: Cell, u: Value, copy: bool): set<Addr>
    requires Mergeable(s0, dst, v, src, u, copy)
  {
    Foot(s0, Ref(dst), v) + (st.Keys - s0.Keys) + if copy then {} else Foot(s0, src, u)
  }

  /** Nothing but the map objects of dst is changed, and dst shows d. */
  predicate Merged(s0: Store, st: Store, dst: Addr, v: Value, src: Cell, u: Value, copy: bool, d: Dict)
    requires Mergeable(s0, dst, v, src, u, copy)
  {
    && s0.Keys <= st.Keys && Agree(s0, st, s0.Keys - Foot(s0, Ref(dst), v))
    && Shows(st, Ref(dst), Branch(d)) && Apart(st, Ref(dst), Branch(d))
    && Foot(st, Ref(dst), Branch(d)) <= Reachable(s0, st, dst, v, src, u, copy)
  }

  /** What is left of src has no map object in dst yet, and what is there under its keys was there before. */
  predicate Ahead(s0: Store, st: Store, dst: Addr, v: Value, src: Cell, u: Value, d: Dict, left: set<Key>)
    requires Shows(s0, Ref(dst), v) && Shows(st, Ref(dst), Branch(d)) && Shows(st, src, u) && u.Branch? && left <= u.entries.Keys
  {
    forall k :: k in left ==>
      && Foot(st, Ref(dst), Branch(d)) !! ChildFoot(st, src, u, k)
      && Under(st, Ref(dst), Branch(d), k) <= Foot(s0, Ref(dst), v)
  }

  /** A merge in progress. */
  predicate Merging(s0: Store, st: Store, dst: Addr, v: Value, src: Cell, u: Value, copy: bool, d: Dict, left: set<Key>) {
    && Mergeable(s0, dst, v, src, u, copy) && u.Branch? && left <= u.entries.Keys
    && Merged(s0, st, dst, v, src, u, copy, d)
    && Shows(st, src, u) && Foot(st, src, u) == Foot(s0, src, u) && (!copy ==> Apart(st, src, u))
    && Ahead(s0, st, dst, v, src, u, d, left)
  }

  lemma MergeStart(s0: Store, dst: Addr, v: Value, src: Cell, u: Value, copy: bool)
    requires Mergeable(s0, dst, v, src, u, copy) && u.Branch?
    ensures Merging(s0, s0, dst, v, src, u, copy, v.entries, u.entries.Keys)
  {
  }

  lemma PartialWhole(dst: Dict, src: Value)
    ensures Partial(dst, src, Entries(src).Keys) == dst && Partial(dst, src, {}) == Merge(dst, src)
  {
  }

  lemma PartialStep(dst: Dict, src: Value, left: set<Key>, k: Key)
    requires left <= Entries(src).Keys && k in left
    ensures Partial(dst, src, left)[k := Merge(dst, src)[k]] == Partial(dst, src, left - {k})
    ensures k in Partial(dst, src, left) <==> k in dst
    ensures k in dst ==> Partial(dst, src, left)[k] == dst[k]
  {
  }

  /** A value for the entry k: its map objects are below the old entry, new, or - when aliasing - below the entry of
      the source. */
  predicate Fits(st: Store, mid: Store, dst: Addr, d: Value, src: Cell, u: Value, copy: bool, k: Key, cell: Cell, w: Value)
    requires d.Branch? && u.Branch? && Shows(st, Ref(dst), d) && Shows(st, src, u) && k in u.entries
  {
    && st.Keys <= mid.Keys && Agree(st, mid, st.Keys - Under(st, Ref(dst), d, k))
    && Shows(mid, cell, w) && Apart(mid, cell, w)
    && Foot(mid, cell, w) <= Under(st, Ref(dst), d, k) + (mid.Keys - st.Keys) + if copy then {} else ChildFoot(st, src, u, k)
  }

  lemma FitsReplaces(st: Store, mid: Store, dst: Addr, d: Value, src: Cell, u: Value, copy: bool, k: Key, cell: Cell, w: Value)
    requires d.Branch? && u.Branch? && Shows(st, Ref(dst), d) && Apart(st, Ref(dst), d) && Shows(st, src, u) && k in u.entries
    requires Foot(st, Ref(dst), d) !! ChildFoot(st, src, u, k) && Fits(st, mid, dst, d, src, u, copy, k, cell, w)
    ensures TouchesOnly(st, mid, dst, d, k) && Replaces(st, mid, dst, d, k, cell, w)
  {
    FootAllocated(st, Ref(dst), d);
  }

  /** The source is not touched by setting one entry. */
  lemma SourceStays(st: Store, mid: Store, dst: Addr, d: Value, src: Cell, u: Value, k: Key, cell: Cell)
    requires d.Branch? && Shows(st, Ref(dst), d) && Apart(st, Ref(dst), d) && Shows(st, src, u) && dst in mid
    requires Foot(st, src, u) !! Under(st, Ref(dst), d, k) + {dst}
    requires Agree(st, mid, st.Keys - Under(st, Ref(dst), d, k))
    ensures var to := Put(mid, dst, k, cell);
      Shows(to, src, u) && Foot(to, src, u) == Foot(st, src, u) && (Apart(st, src, u) ==> Apart(to, src, u))
    ensures u.Branch? ==> forall j :: j in u.entries ==> ChildFoot(Put(mid, dst, k, cell), src, u, j) == ChildFoot(st, src, u, j)
  {
    var to := Put(mid, dst, k, cell);
    FootAllocated(st, src, u);
    Framed(st, to, src, u);
    if u.Branch? {
      forall j | j in u.entries ensures ChildFoot(to, src, u, j) == ChildFoot(st, src, u, j) {
        ChildInFoot(st, src, u, j);
        assert to[src.addr] == st[src.addr];
        Framed(st, to, st[src.addr][j], u.entries[j]);
      }
    }
  }

  lemma StepReach(s0: Store, st: Store, mid: Store, dst: Addr, v: Value, src: Cell, u: Value, copy: bool, d: Dict,
                  left: set<Key>, k: Key, cell: Cell, w: Value)
    requires Merging(s0, st, dst, v, src, u, copy, d, left) && k in left
    requires Fits(st, mid, dst, Branch(d), src, u, copy, k, cell, w)
    ensures dst in mid && Merged(s0, Put(mid, dst, k, cell), dst, v, src, u, copy, d[k := w])
  {
    FitsReplaces(st, mid, dst, Branch(d), src, u, copy, k, cell, w);
    EntrySet(st, mid, dst, Branch(d), k, cell, w);
    ChildInFoot(st, src, u, k);
    StepFrame(s0, st, mid, dst, v, src, u, copy, d, left, k, cell, w);
    assert mid.Keys - st.Keys <= Put(mid, dst, k, cell).Keys - s0.Keys;
  }

  lemma StepFrame(s0: Store, st: Store, mid: Store, dst: Addr, v: Value, src: Cell, u: Value, copy: bool, d: Dict,
                  left: set<Key>, k: Key, cell: Cell, w: Value)
    requires Merging(s0, st, dst, v, src, u, copy, d, left) && k in left && dst in mid
    requires Fits(st, mid, dst, Branch(d), src, u, copy, k, cell, w)
    ensures s0.Keys <= Put(mid, dst, k, cell).Keys && Agree(s0, Put(mid, dst, k, cell), s0.Keys - Foot(s0, Ref(dst), v))
  {
    var under, to := Under(st, Ref(dst), Branch(d), k), Put(mid, dst, k, cell);
    assert under <= Foot(s0, Ref(dst), v) && dst in Foot(s0, Ref(dst), v);
    forall a | a in s0.Keys - Foot(s0, Ref(dst), v) ensures a in to && to[a] == s0[a] {
      assert a in st.Keys - under;
    }
  }

  /** Another entry that is left: nothing under it in dst has changed, and dst has nothing of it. */
  lemma StepAheadOne(s0: Store, st: Store, mid: Store, dst: Addr, v: Value, src: Cell, u: Value, copy: bool, d: Dict,
                     left: set<Key>, k: Key, cell: Cell, w: Value, j: Key)
    requires Merging(s0, st, dst, v, src, u, copy, d, left) && k in left && j in left && j != k
    requires Fits(st, mid, dst, Branch(d), src, u, copy, k, cell, w) && dst in mid
    requires Shows(Put(mid, dst, k, cell), Ref(dst), Branch(d[k := w]))
    ensures (Foot(st, Ref(dst), Branch(d)) + Foot(mid, cell, w)) !! ChildFoot(st, src, u, j)
    ensures Under(Put(mid, dst, k, cell), Ref(dst), Branch(d[k := w]), j) <= Foot(s0, Ref(dst), v)
  {
    FitsReplaces(st, mid, dst, Branch(d), src, u, copy, k, cell, w);
    FootAllocated(st, src, u);
    ChildInFoot(st, src, u, j);
    if k in d { ChildInFoot(st, Ref(dst), Branch(d), k); }
    if j in d { OtherChild(st, mid, dst, Branch(d), k, cell, w, j); }
  }

  lemma StepAhead(s0: Store, st: Store, mid: Store, dst: Addr, v: Value, src: Cell, u: Value, copy: bool, d: Dict,
                  left: set<Key>, k: Key, cell: Cell, w: Value)
    requires Merging(s0, st, dst, v, src, u, copy, d, left) && k in left
    requires Fits(st, mid, dst, Branch(d), src, u, copy, k, cell, w) && dst in mid
    requires var to := Put(mid, dst, k, cell);
      && Shows(to, Ref(dst), Branch(d[k := w])) && Shows(to, src, u)
      && Foot(to, Ref(dst), Branch(d[k := w])) <= Foot(st, Ref(dst), Branch(d)) + Foot(mid, cell, w)
      && forall j :: j in u.entries ==> ChildFoot(to, src, u, j) == ChildFoot(st, src, u, j)
    ensures Ahead(s0, Put(mid, dst, k, cell), dst, v, src, u, d[k := w], left - {k})
  {
    var to := Put(mid, dst, k, cell);
    forall j | j in left - {k}
      ensures Foot(to, Ref(dst), Branch(d[k := w])) !! ChildFoot(to, src, u, j)
      ensures Under(to, Ref(dst), Branch(d[k := w]), j) <= Foot(s0, Ref(dst), v)
    {
      StepAheadOne(s0, st, mid, dst, v, src, u, copy, d, left, k, cell, w, j);
    }
  }

  lemma SourceApart(s0: Store, st: Store, dst: Addr, v: Value, src: Cell, u: Value, copy: bool, d: Dict, left: set<Key>, k: Key)
    requires Merging(s0, st, dst, v, src, u, copy, d, left) && k in left
    ensures Foot(st, src, u) !! Under(st, Ref(dst), Branch(d), k) + {dst}
  {
  }

  /** One entry merged: the merge goes on with the others. */
  lemma MergeStep(s0: Store, st: Store, mid: Store, dst: Addr, v: Value, src: Cell, u: Value, copy: bool, d: Dict,
                  left: set<Key>, k: Key, cell: Cell, w: Value)
    requires Merging(s0, st, dst, v, src, u, copy, d, left) && k in left
    requires Fits(st, mid, dst, Branch(d), src, u, copy, k, cell, w)
    ensures dst in mid && Merging(s0, Put(mid, dst, k, cell), dst, v, src, u, copy, d[k := w], left - {k})
  {
    var b, to := Branch(d), Put(mid, dst, k, cell);
    FitsReplaces(st, mid, dst, b, src, u, copy, k, cell, w);
    EntrySet(st, mid, dst, b, k, cell, w);
    SourceApart(s0, st, dst, v, src, u, copy, d, left, k);
    SourceStays(st, mid, dst, b, src, u, k, cell);
    StepReach(s0, st, mid, dst, v, src, u, copy, d, left, k, cell, w);
    StepAhead(s0, st, mid, dst, v, src, u, copy, d, left, k, cell, w);
  }

  // ---------- An entry that is a map on both sides ----------

  /** The map object under k that is merged into, the old one or a new one in place of a nil map. */
  predicate IsChild(st: Store, mid: Store, dst: Addr, d: Dict, k: Key, child: Cell, at: Value)
    requires Shows(st, Ref(dst), Branch(d))
  {
    && st.Keys <= mid.Keys && dst in mid && mid[dst] == st[dst][k := child] && Agree(st, mid, st.Keys - {dst})
    && at.Branch? && Shows(mid, child, at) && Apart(mid, child, at) && dst !in Foot(mid, child, at)
    && Foot(mid, child, at) <= Under(st, Ref(dst), Branch(d), k) + (mid.Keys - st.Keys)
  }

  lemma OldChild(st: Store, dst: Addr, d: Dict, k: Key)
    requires Shows(st, Ref(dst), Branch(d)) && Apart(st, Ref(dst), Branch(d)) && k in d && d[k].Branch?
    ensures IsChild(st, st, dst, d, k, st[dst][k], d[k])
  {
  }

  lemma NewMap(st: Store, dst: Addr, d: Dict, k: Key, made: Addr)
    requires Shows(st, Ref(dst), Branch(d)) && made !in st
    ensures IsChild(st, Put(st[made := map[]], dst, k, Ref(made)), dst, d, k, Ref(made), Branch(map[]))
  {
  }

  lemma ChildMergeable(st: Store, mid: Store, dst: Addr, d: Dict, src: Cell, u: Value, k: Key, child: Cell, at: Value, copy: bool)
    requires Shows(st, Ref(dst), Branch(d)) && Shows(st, src, u) && u.Branch? && k in u.entries && IsMap(u.entries[k])
    requires Foot(st, Ref(dst), Branch(d)) !! ChildFoot(st, src, u, k) && (!copy ==> Apart(st, src, u))
    requires IsChild(st, mid, dst, d, k, child, at)
    ensures child.Ref? && Mergeable(mid, child.addr, at, st[src.addr][k], u.entries[k], copy)
    ensures Foot(mid, st[src.addr][k], u.entries[k]) == ChildFoot(st, src, u, k)
  {
    FootAllocated(st, st[src.addr][k], u.entries[k]);
    assert dst in Foot(st, Ref(dst), Branch(d));
    Framed(st, mid, st[src.addr][k], u.entries[k]);
    if k in d { ChildInFoot(st, Ref(dst), Branch(d), k); }
  }

  /** The source's own entries are as they were. */
  lemma SourceKept(s0: Store, st: Store, to: Store, dst: Addr, v: Value, src: Cell, u: Value, copy: bool, d: Dict, e: Dict,
                   left: set<Key>, k: Key)
    requires Merging(s0, st, dst, v, src, u, copy, d, left) && Merging(s0, to, dst, v, src, u, copy, e, left - {k})
    ensures src.addr in to && to[src.addr] == st[src.addr]
  {
  }

  /** The child merged, dst as a whole has one entry more merged. */
  lemma ChildMerged(s0: Store, st: Store, mid: Store, to: Store, dst: Addr, v: Value, src: Cell, u: Value, copy: bool, d: Dict,
                    left: set<Key>, k: Key, child: Cell, at: Value)
    requires Merging(s0, st, dst, v, src, u, copy, d, left) && k in left && IsMap(u.entries[k])
    requires IsChild(st, mid, dst, d, k, child, at) && child.Ref?
    requires Mergeable(mid, child.addr, at, st[src.addr][k], u.entries[k], copy)
    requires Foot(mid, st[src.addr][k], u.entries[k]) == ChildFoot(st, src, u, k)
    requires Merged(mid, to, child.addr, at, st[src.addr][k], u.entries[k], copy, Merge(at.entries, u.entries[k]))
    ensures Merging(s0, to, dst, v, src, u, copy, d[k := Branch(Merge(at.entries, u.entries[k]))], left - {k})
  {
    var w := Branch(Merge(at.entries, u.entries[k]));
    SourceApart(s0, st, dst, v, src, u, copy, d, left, k);
    ChildInFoot(st, src, u, k);
    ChildMergedFoot(st, mid, to, dst, d, src, u, copy, k, child, at);
    ChildFits(st, to, dst, d, src, u, copy, k, child, w);
    MergeStep(s0, st, to[dst := st[dst]], dst, v, src, u, copy, d, left, k, child, w);
  }

  lemma ChildFits(st: Store, to: Store, dst: Addr, d: Dict, src: Cell, u: Value, copy: bool, k: Key, child: Cell, w: Value)
    requires Shows(st, Ref(dst), Branch(d)) && Shows(st, src, u) && u.Branch? && k in u.entries
    requires st.Keys <= to.Keys && dst in to && to[dst] == st[dst][k := child]
    requires Agree(st, to, st.Keys - Under(st, Ref(dst), Branch(d), k) - {dst})
    requires Shows(to, child, w) && Apart(to, child, w) && dst !in Foot(to, child, w)
    requires Foot(to, child, w) <= Under(st, Ref(dst), Branch(d), k) + (to.Keys - st.Keys) + if copy then {} else ChildFoot(st, src, u, k)
    ensures Fits(st, to[dst := st[dst]], dst, Branch(d), src, u, copy, k, child, w)
    ensures Put(to[dst := st[dst]], dst, k, child) == to
  {
    var mid := to[dst := st[dst]];
    Framed(to, mid, child, w);
    assert Agree(st, mid, st.Keys - Under(st, Ref(dst), Branch(d), k)) && mid.Keys == to.Keys;
  }

  lemma CopyFits(st: Store, mid: Store, dst: Addr, d: Dict, src: Cell, u: Value, k: Key, cell: Cell)
    requires Shows(st, Ref(dst), Branch(d)) && Shows(st, src, u) && u.Branch? && k in u.entries
    requires st.Keys <= mid.Keys && Agree(st, mid, st.Keys)
    requires Shows(mid, cell, u.entries[k]) && Apart(mid, cell, u.entries[k]) && Foot(mid, cell, u.entries[k]) !! st.Keys
    ensures Fits(st, mid, dst, Branch(d), src, u, true, k, cell, u.entries[k])
  {
    FootAllocated(mid, cell, u.entries[k]);
  }

  /** What the cells tell about the values: when both entries are maps, and what becomes of them. */
  lemma EntryKinds(st: Store, dst: Addr, v: Value, src: Cell, u: Value, d: Dict, left: set<Key>, k: Key)
    requires v.Branch? && u.Branch? && left <= u.entries.Keys && d == Partial(v.entries, u, left) && k in left
    requires Shows(st, Ref(dst), Branch(d)) && Shows(st, src, u)
    ensures k in st[dst] <==> k in v.entries
    ensures k in v.entries ==> k in d && d[k] == v.entries[k] && Shows(st, st[dst][k], d[k])
    ensures var both := k in st[dst] && !st[dst][k].Scalar? && !st[src.addr][k].Scalar?;
      && both == (k in d && IsMap(d[k]) && IsMap(u.entries[k]))
      && Merge(v.entries, u)[k] == if both then Branch(Merge(Entries(d[k]), u.entries[k])) else u.entries[k]
  {
  }

  lemma ChildMergedFoot(st: Store, mid: Store, to: Store, dst: Addr, d: Dict, src: Cell, u: Value, copy: bool, k: Key, child: Cell, at: Value)
    requires Shows(st, Ref(dst), Branch(d)) && Apart(st, Ref(dst), Branch(d)) && Shows(st, src, u) && u.Branch? && k in u.entries
    requires dst !in ChildFoot(st, src, u, k)
    requires IsChild(st, mid, dst, d, k, child, at) && child.Ref?
    requires Mergeable(mid, child.addr, at, st[src.addr][k], u.entries[k], copy)
    requires Foot(mid, st[src.addr][k], u.entries[k]) == ChildFoot(st, src, u, k)
    requires Merged(mid, to, child.addr, at, st[src.addr][k], u.entries[k], copy, Merge(at.entries, u.entries[k]))
    ensures st.Keys <= to.Keys && dst in to && to[dst] == st[dst][k := child]
    ensures Agree(st, to, st.Keys - Under(st, Ref(dst), Branch(d), k) - {dst})
    ensures var foot := Foot(to, child, Branch(Merge(at.entries, u.entries[k])));
      && dst !in foot
      && foot <= Under(st, Ref(dst), Branch(d), k) + (to.Keys - st.Keys) + if copy then {} else ChildFoot(st, src, u, k)
  {
    forall a | a in st.Keys - Under(st, Ref(dst), Branch(d), k) - {dst} ensures a in to && to[a] == st[a] {
      assert a in mid.Keys - Foot(mid, child, at);
    }
  }

  // ---------- Merging the same source again ----------

  /** Whatever the source holds, dst holds too: the very same cell, or a map that holds what the source's map does. */
  predicate Absorbs(st: Store, dst: Addr, src: Addr, u: Value)
    decreases u, 1
  {
    && u.Branch? && Shows(st, Ref(src), u) && dst in st
    && forall k :: k in u.entries ==> AbsorbsAt(st, dst, src, u, k)
  }

  predicate AbsorbsAt(st: Store, dst: Addr, src: Addr, u: Value, k: Key)
    requires u.Branch? && k in u.entries
    decreases u, 0
  {
    && dst in st && src in st && k in st[dst] && k in st[src]
    && (st[dst][k] == st[src][k]
     || (st[dst][k].Ref? && st[src][k].Ref? && Absorbs(st, st[dst][k].addr, st[src][k].addr, u.entries[k])))
  }

  lemma {:induction false} AbsorbsFramed(st: Store, to: Store, dst: Addr, d: Value, src: Addr, u: Value)
    requires Absorbs(st, dst, src, u) && Shows(st, Ref(dst), d) && d.Branch?
    requires Agree(st, to, Foot(st, Ref(dst), d) + Foot(st, Ref(src), u))
    ensures Absorbs(to, dst, src, u)
    decreases u
  {
    Framed(st, to, Ref(src), u);
    assert to[dst] == st[dst] && to[src] == st[src];
    forall k | k in u.entries ensures AbsorbsAt(to, dst, src, u, k) {
      assert AbsorbsAt(st, dst, src, u, k);
      if st[dst][k] != st[src][k] {
        assert k in d.entries && Shows(st, st[dst][k], d.entries[k]);
        ChildInFoot(st, Ref(dst), d, k);
        ChildInFoot(st, Ref(src), u, k);
        AbsorbsFramed(st, to, st[dst][k].addr, d.entries[k], st[src][k].addr, u.entries[k]);
      }
    }
  }

  /** A map object holds what it holds itself. */
  lemma AbsorbsSelf(st: Store, a: Addr, u: Value)
    requires u.Branch? && Shows(st, Ref(a), u)
    ensures Absorbs(st, a, a, u)
  {
    forall k | k in u.entries ensures AbsorbsAt(st, a, a, u, k) {
    }
  }

  lemma AbsorbsChild(st: Store, dst: Addr, src: Addr, u: Value, k: Key)
    requires Absorbs(st, dst, src, u) && k in u.entries && AbsorbsAt(st, dst, src, u, k) && st[dst][k].Ref? && st[src][k].Ref?
    ensures Absorbs(st, st[dst][k].addr, st[src][k].addr, u.entries[k])
  {
    assert Shows(st, st[src][k], u.entries[k]);
    if st[dst][k] == st[src][k] { AbsorbsSelf(st, st[src][k].addr, u.entries[k]); }
  }

  lemma {:induction false} ShowsOne(st: Store, c: Cell, a: Value, b: Value)
    requires Shows(st, c, a) && Shows(st, c, b)
    ensures a == b
    decreases a
  {
    if a.Branch? {
      forall k | k in a.entries ensures a.entries[k] == b.entries[k] {
        ShowsOne(st, st[c.addr][k], a.entries[k], b.entries[k]);
      }
      assert a.entries == b.entries;
    }
  }

  /** Where dst holds all that the source holds, the trees say so too: merged, they are the tree of dst. */
  lemma {:induction false} AbsorbsTree(st: Store, dst: Addr, d: Dict, src: Addr, u: Value)
    requires Absorbs(st, dst, src, u) && Shows(st, Ref(dst), Branch(d)) && !HasNil(u)
    ensures Merge(d, u) == d
    decreases u
  {
    forall k | k in u.entries ensures k in d && MergeValue(d[k], u.entries[k]) == d[k] {
      assert AbsorbsAt(st, dst, src, u, k) && Shows(st, st[dst][k], d[k]) && Shows(st, st[src][k], u.entries[k]);
      if st[dst][k] == st[src][k] {
        ShowsOne(st, st[dst][k], d[k], u.entries[k]);
        if d[k].Branch? { MergeSelf(d[k]); }
      } else {
        AbsorbsTree(st, st[dst][k].addr, d[k].entries, st[src][k].addr, u.entries[k]);
      }
    }
    assert Merge(d, u).Keys == d.Keys;
  }

  lemma CellHeld(st: Store, dst: Addr, src: Addr, u: Value, k: Key)
    requires Absorbs(st, dst, src, u) && k in u.entries && src in st && k in st[src]
    requires !(k in st[dst] && st[dst][k].Ref? && st[src][k].Ref?)
    ensures Put(st, dst, k, st[src][k]) == st
  {
    assert AbsorbsAt(st, dst, src, u, k);
    assert st[dst][k := st[src][k]] == st[dst];
  }

  /** The entries of the source that are merged by now are held by dst. */
  predicate Taken(st: Store, dst: Addr, src: Addr, u: Value, left: set<Key>)
    requires u.Branch?
  {
    forall k :: k in u.entries && k !in left ==> AbsorbsAt(st, dst, src, u, k)
  }

  /** A merge that aliases in progress. */
  predicate Sharing(s0: Store, st: Store, dst: Addr, v: Value, src: Addr, u: Value, d: Dict, left: set<Key>) {
    Merging(s0, st, dst, v, Ref(src), u, false, d, left) && Taken(st, dst, src, u, left)
  }

  /** Merging the entry k leaves another one held. */
  lemma HeldStays(st: Store, to: Store, dst: Addr, d: Dict, src: Addr, u: Value, k: Key, cell: Cell, j: Key)
    requires Shows(st, Ref(dst), Branch(d)) && Apart(st, Ref(dst), Branch(d)) && u.Branch? && Shows(st, Ref(src), u)
    requires Foot(st, Ref(src), u) !! Under(st, Ref(dst), Branch(d), k) + {dst}
    requires dst in to && to[dst] == st[dst][k := cell] && src in to && to[src] == st[src]
    requires Agree(st, to, st.Keys - Under(st, Ref(dst), Branch(d), k) - {dst})
    requires j in u.entries && j != k && AbsorbsAt(st, dst, src, u, j)
    ensures AbsorbsAt(to, dst, src, u, j)
  {
    assert to[dst][j] == st[dst][j] && to[src][j] == st[src][j];
    if st[dst][j] != st[src][j] {
      assert j in d;
      ChildInFoot(st, Ref(src), u, j);
      FootAllocated(st, st[dst][j], d[j]);
      FootAllocated(st, st[src][j], u.entries[j]);
      assert Agree(st, to, ChildFoot(st, Ref(dst), Branch(d), j) + ChildFoot(st, Ref(src), u, j));
      AbsorbsFramed(st, to, st[dst][j].addr, d[j], st[src][j].addr, u.entries[j]);
    }
  }

  /** ... and all that are held by then. */
  lemma TakenStays(s0: Store, st: Store, to: Store, dst: Addr, v: Value, src: Addr, u: Value, d: Dict, left: set<Key>, k: Key, cell: Cell)
    requires Merging(s0, st, dst, v, Ref(src), u, false, d, left) && k in left && Taken(st, dst, src, u, left)
    requires dst in to && to[dst] == st[dst][k := cell] && src in to && to[src] == st[src]
    requires Agree(st, to, st.Keys - Under(st, Ref(dst), Branch(d), k) - {dst})
    requires AbsorbsAt(to, dst, src, u, k)
    ensures Taken(to, dst, src, u, left - {k})
  {
    SourceApart(s0, st, dst, v, Ref(src), u, false, d, left, k);
    forall j | j in u.entries && j !in left - {k} ensures AbsorbsAt(to, dst, src, u, j) {
      if j != k { HeldStays(st, to, dst, d, src, u, k, cell, j); }
    }
  }

  /** Without nil maps: which entries are map objects on both sides, and what the others become. */
  lemma EntryShares(s0: Store, st: Store, dst: Addr, v: Value, src: Addr, u: Value, d: Dict, left: set<Key>, k: Key)
    requires Merging(s0, st, dst, v, Ref(src), u, false, d, left) && d == Partial(v.entries, u, left) && k in left
    requires !HasNil(v) && !HasNil(u)
    ensures dst in st && src in st && k in st[src]
    ensures if k in st[dst] && st[dst][k].Ref? && st[src][k].Ref?
      then k in d && d[k].Branch? && !HasNil(d[k]) && IsMap(u.entries[k])
        && Merge(v.entries, u)[k] == Branch(Merge(d[k].entries, u.entries[k]))
      else Merge(v.entries, u)[k] == u.entries[k]
  {
    EntryKinds(st, dst, v, Ref(src), u, d, left, k);
    assert Shows(st, st[src][k], u.entries[k]) && !HasNil(u.entries[k]);
    if k in st[dst] { assert Shows(st, st[dst][k], d[k]) && !HasNil(d[k]); }
  }

  /** An entry that is a map on both sides can be merged by itself. */
  lemma ChildReady(s0: Store, st: Store, dst: Addr, v: Value, src: Addr, u: Value, d: Dict, left: set<Key>, k: Key)
    requires Merging(s0, st, dst, v, Ref(src), u, false, d, left) && k in left && IsMap(u.entries[k])
    requires k in d && k in st[dst] && k in st[src] && d[k].Branch?
    ensures IsChild(st, st, dst, d, k, st[dst][k], d[k]) && st[dst][k].Ref?
    ensures Mergeable(st, st[dst][k].addr, d[k], st[src][k], u.entries[k], false)
    ensures Foot(st, st[src][k], u.entries[k]) == ChildFoot(st, Ref(src), u, k)
  {
    OldChild(st, dst, d, k);
    ChildMergeable(st, st, dst, d, Ref(src), u, k, st[dst][k], d[k], false);
  }

  /** ... and then the merge goes on with the others. */
  lemma ChildShared(s0: Store, st: Store, to: Store, dst: Addr, v: Value, src: Addr, u: Value, d: Dict, left: set<Key>, k: Key)
    requires Merging(s0, st, dst, v, Ref(src), u, false, d, left) && Taken(st, dst, src, u, left) && k in left && IsMap(u.entries[k])
    requires k in d && k in st[dst] && k in st[src] && d[k].Branch? && st[dst][k].Ref?
    requires IsChild(st, st, dst, d, k, st[dst][k], d[k]) && Mergeable(st, st[dst][k].addr, d[k], st[src][k], u.entries[k], false)
    requires Foot(st, st[src][k], u.entries[k]) == ChildFoot(st, Ref(src), u, k)
    requires Merged(st, to, st[dst][k].addr, d[k], st[src][k], u.entries[k], false, Merge(d[k].entries, u.entries[k]))
    requires st[src][k].Ref? && Absorbs(to, st[dst][k].addr, st[src][k].addr, u.entries[k])
    ensures Sharing(s0, to, dst, v, src, u, d[k := Branch(Merge(d[k].entries, u.entries[k]))], left - {k})
    ensures src in to && to[src] == st[src]
  {
    var e := d[k := Branch(Merge(d[k].entries, u.entries[k]))];
    ChildMerged(s0, st, st, to, dst, v, Ref(src), u, false, d, left, k, st[dst][k], d[k]);
    ChildTaken(s0, st, to, dst, v, src, u, d, e, left, k);
  }

  lemma ChildTaken(s0: Store, st: Store, to: Store, dst: Addr, v: Value, src: Addr, u: Value, d: Dict, e: Dict, left: set<Key>, k: Key)
    requires Merging(s0, st, dst, v, Ref(src), u, false, d, left) && Taken(st, dst, src, u, left) && k in left
    requires k in d && k in st[dst] && k in st[src] && d[k].Branch? && st[dst][k].Ref? && st[src][k].Ref?
    requires IsChild(st, st, dst, d, k, st[dst][k], d[k]) && Mergeable(st, st[dst][k].addr, d[k], st[src][k], u.entries[k], false)
    requires Foot(st, st[src][k], u.entries[k]) == ChildFoot(st, Ref(src), u, k)
    requires Merged(st, to, st[dst][k].addr, d[k], st[src][k], u.entries[k], false, Merge(d[k].entries, u.entries[k]))
    requires Absorbs(to, st[dst][k].addr, st[src][k].addr, u.entries[k])
    requires Merging(s0, to, dst, v, Ref(src), u, false, e, left - {k})
    ensures src in to && to[src] == st[src] && Taken(to, dst, src, u, left - {k})
  {
    SourceApart(s0, st, dst, v, Ref(src), u, false, d, left, k);
    SourceKept(s0, st, to, dst, v, Ref(src), u, false, d, e, left, k);
    ChildMergedFoot(st, st, to, dst, d, Ref(src), u, false, k, st[dst][k], d[k]);
    assert AbsorbsAt(to, dst, src, u, k);
    TakenStays(s0, st, to, dst, v, src, u, d, left, k, st[dst][k]);
  }

  /** An entry taken over as it is. */
  lemma CellShared(s0: Store, st: Store, dst: Addr, v: Value, src: Addr, u: Value, d: Dict, left: set<Key>, k: Key)
    requires Sharing(s0, st, dst, v, src, u, d, left) && k in left
    ensures dst in st && src in st && k in st[src]
    ensures var to := Put(st, dst, k, st[src][k]);
      && Sharing(s0, to, dst, v, src, u, d[k := u.entries[k]], left - {k})
      && src in to && to[src] == st[src]
  {
    var cell, to := st[src][k], Put(st, dst, k, st[src][k]);
    SourceApart(s0, st, dst, v, Ref(src), u, false, d, left, k);
    CellFits(st, dst, Branch(d), Ref(src), u, k);
    MergeStep(s0, st, st, dst, v, Ref(src), u, false, d, left, k, cell, u.entries[k]);
    SourceKept(s0, st, to, dst, v, Ref(src), u, false, d, d[k := u.entries[k]], left, k);
    assert AbsorbsAt(to, dst, src, u, k);
    TakenStays(s0, st, to, dst, v, src, u, d, left, k, cell);
  }

  lemma CellFits(st: Store, dst: Addr, d: Value, src: Cell, u: Value, k: Key)
    requires d.Branch? && u.Branch? && Shows(st, Ref(dst), d) && Shows(st, src, u) && Apart(st, src, u) && k in u.entries
    ensures Fits(st, st, dst, d, src, u, false, k, st[src.addr][k], u.entries[k])
  {
  }

  /** The map objects, and the next address that was never used. */
  class Heap {
    var st: Store
    var next: Addr

    constructor (st: Store, next: Addr)
      requires forall a :: a in st ==> a < next
      ensures this.st == st && Valid()
    {
      this.st, this.next := st, next;
    }

    predicate Valid()
      reads this
    {
      forall a :: a in st ==> a < next
    }

    /** make(map) */
    method Make() returns (a: Addr)
      requires Valid()
      modifies this
      ensures Valid() && a !in old(st) && st == old(st)[a := map[]]
    {
      a := next;
      st := st[a := map[]];
      next := next + 1;
    }

    method Set(a: Addr, k: Key, cell: Cell)
      requires Valid() && a in st
      modifies `st
      ensures Valid() && st == Put(old(st), a, k, cell)
    {
      st := Put(st, a, k, cell);
    }

    /** deepCopyMap, and any other value as it is. */
    method DeepCopy(c: Cell, ghost v: Value) returns (r: Cell)
      requires Valid() && Shows(st, c, v)
      modifies this
      ensures Valid() && old(st).Keys <= st.Keys && Agree(old(st), st, old(st).Keys)
      ensures Shows(st, r, v) && Apart(st, r, v) && Foot(st, r, v) !! old(st).Keys
      decreases v, 1
    {
      if !c.Ref? {
        return c;
      }
      ghost var s0 := st;
      var source := st[c.addr];
      var out := Make();
      var left := source.Keys;
      CopyStart(s0, st, c, v, out);
      while left != {}
        invariant Valid() && Copying(s0, st, c, v, out, left)
        decreases |left|
      {
        var k :| k in left;
        CopyEntry(c, source[k], out, k, s0, v, left);
        left := left - {k};
      }
      CopyDone(s0, st, c, v, out);
      r := Ref(out);
    }

    method CopyEntry(ghost c: Cell, cell: Cell, out: Addr, k: Key, ghost s0: Store, ghost v: Value, ghost left: set<Key>)
      requires Valid() && Copying(s0, st, c, v, out, left) && k in left && cell == s0[c.addr][k]
      modifies this
      ensures Valid() && Copying(s0, st, c, v, out, left - {k})
      decreases v, 0
    {
      ghost var before := st;
      CopyReady(s0, before, c, v, out, left, k);
      var copy := DeepCopy(cell, v.entries[k]);
      CopyStep(s0, before, st, c, v, out, left, k, copy);
      Set(out, k, copy);
    }

    /** mergeRecursive of the JavaScript compiler: what is taken over is copied. */
    method MergeCopying(dst: Addr, src: Cell, ghost v: Value, ghost u: Value)
      requires Valid() && Mergeable(st, dst, v, src, u, true)
      modifies this
      ensures Valid() && Merged(old(st), st, dst, v, src, u, true, Merge(v.entries, u))
      decreases u, 2
    {
      PartialWhole(v.entries, u);
      if !src.Ref? {
        return;
      }
      ghost var s0, d := st, v.entries;
      MergeStart(s0, dst, v, src, u, true);
      var source := st[src.addr];
      var left := source.Keys;
      while left != {}
        invariant Valid() && Merging(s0, st, dst, v, src, u, true, d, left) && d == Partial(v.entries, u, left)
        invariant src.addr in st && st[src.addr] == source
        decreases |left|
      {
        var k :| k in left;
        d := MergeEntryCopying(dst, src, k, s0, v, u, d, left);
        PartialStep(v.entries, u, left, k);
        left := left - {k};
      }
    }

    method MergeEntryCopying(dst: Addr, src: Cell, k: Key, ghost s0: Store, ghost v: Value, ghost u: Value, ghost d: Dict,
                             ghost left: set<Key>)
      returns (ghost d': Dict)
      requires Valid() && Merging(s0, st, dst, v, src, u, true, d, left) && d == Partial(v.entries, u, left) && k in left
      modifies this
      ensures Valid() && d' == d[k := Merge(v.entries, u)[k]] && Merging(s0, st, dst, v, src, u, true, d', left - {k})
      ensures src.addr in st && st[src.addr] == old(st)[src.addr]
      decreases u, 1
    {
      EntryKinds(st, dst, v, src, u, d, left, k);
      var cell := st[src.addr][k];
      ghost var before := st;
      d' := d[k := Merge(v.entries, u)[k]];
      if k in st[dst] && !st[dst][k].Scalar? && !cell.Scalar? {
        MergeChildCopying(dst, src, k, s0, v, u, d, left);
      } else {
        cell := DeepCopy(cell, u.entries[k]);
        CopyFits(before, st, dst, d, src, u, k, cell);
        MergeStep(s0, before, st, dst, v, src, u, true, d, left, k, cell, u.entries[k]);
        Set(dst, k, cell);
      }
      SourceKept(s0, before, st, dst, v, src, u, true, d, d', left, k);
    }

    /** An entry that is a map on both sides; a nil map in dst is replaced by an empty one first. */
    method MergeChildCopying(dst: Addr, src: Cell, k: Key, ghost s0: Store, ghost v: Value, ghost u: Value, ghost d: Dict,
                             ghost left: set<Key>)
      requires Valid() && Merging(s0, st, dst, v, src, u, true, d, left) && k in left
      requires k in d && IsMap(d[k]) && IsMap(u.entries[k]) && k in st[dst] && Shows(st, st[dst][k], d[k])
      modifies this
      ensures Valid()
      ensures Merging(s0, st, dst, v, src, u, true, d[k := Branch(Merge(Entries(d[k]), u.entries[k]))], left - {k})
      decreases u.entries[k], 3
    {
      var child, cell := st[dst][k], st[src.addr][k];
      ghost var at, before := d[k], st;
      if child == Nil {
        var made := Make();
        child := Ref(made);
        Set(dst, k, child);
        at := Branch(map[]);
        NewMap(before, dst, d, k, made);
      } else {
        OldChild(before, dst, d, k);
      }
      ghost var mid := st;
      ChildMergeable(before, mid, dst, d, src, u, k, child, at, true);
      MergeCopying(child.addr, cell, at, u.entries[k]);
      ChildMerged(s0, before, mid, st, dst, v, src, u, true, d, left, k, child, at);
    }

    /** mergeRecursive of the configuration loader: what is taken over is shared. No nil maps occur here. Merging the
        same source again changes nothing. */
    method MergeAliasing(dst: Addr, src: Addr, ghost v: Value, ghost u: Value)
      requires Valid() && !HasNil(u)
      requires (Mergeable(st, dst, v, Ref(src), u, false) && !HasNil(v)) || Absorbs(st, dst, src, u)
      modifies this
      ensures Valid() && Absorbs(st, dst, src, u)
      ensures old(Mergeable(st, dst, v, Ref(src), u, false) && !HasNil(v)) ==>
        Merged(old(st), st, dst, v, Ref(src), u, false, Merge(v.entries, u))
      ensures old(Absorbs(st, dst, src, u)) ==> st == old(st)
      decreases u, 1
    {
      ghost var first, again := Mergeable(st, dst, v, Ref(src), u, false) && !HasNil(v), Absorbs(st, dst, src, u);
      ghost var s0, d := st, Entries(v);
      if first {
        PartialWhole(v.entries, u);
        MergeStart(s0, dst, v, Ref(src), u, false);
      }
      var source := st[src];
      var left := source.Keys;
      while left != {}
        invariant Valid() && left <= u.entries.Keys
        invariant first ==> Sharing(s0, st, dst, v, src, u, d, left) && d == Partial(v.entries, u, left)
        invariant again ==> st == s0
        invariant src in st && st[src] == source
        decreases |left|
      {
        var k :| k in left;
        d := MergeEntryAliasing(dst, src, k, s0, v, u, d, left, first, again);
        if first { PartialStep(v.entries, u, left, k); }
        left := left - {k};
      }
    }

    method MergeEntryAliasing(dst: Addr, src: Addr, k: Key, ghost s0: Store, ghost v: Value, ghost u: Value, ghost d: Dict,
                              ghost left: set<Key>, ghost first: bool, ghost again: bool)
      returns (ghost d': Dict)
      requires Valid() && !HasNil(u) && u.Branch? && k in left && left <= u.entries.Keys && (first || again)
      requires dst in st && src in st && k in st[src]
      requires first ==> Sharing(s0, st, dst, v, src, u, d, left) && d == Partial(v.entries, u, left) && !HasNil(v)
      requires again ==> Absorbs(st, dst, src, u)
      modifies this
      ensures Valid() && src in st && st[src] == old(st)[src]
      ensures first ==> d' == d[k := Merge(v.entries, u)[k]] && Sharing(s0, st, dst, v, src, u, d', left - {k})
      ensures again ==> st == old(st)
      decreases u, 0
    {
      ghost var before := st;
      d' := d;
      if first {
        EntryShares(s0, before, dst, v, src, u, d, left, k);
        d' := d[k := Merge(v.entries, u)[k]];
      }
      if k in st[dst] && st[dst][k].Ref? && st[src][k].Ref? {
        MergeChildAliasing(dst, src, k, s0, v, u, d, left, first, again);
      } else {
        if first { CellShared(s0, before, dst, v, src, u, d, left, k); }
        if again { CellHeld(before, dst, src, u, k); }
        Set(dst, k, st[src][k]);
      }
    }

    /** An entry that is a map on both sides. */
    method MergeChildAliasing(dst: Addr, src: Addr, k: Key, ghost s0: Store, ghost v: Value, ghost u: Value, ghost d: Dict,
                              ghost left: set<Key>, ghost first: bool, ghost again: bool)
      requires Valid() && !HasNil(u) && u.Branch? && k in left && left <= u.entries.Keys && (first || again)
      requires dst in st && src in st && k in st[dst] && k in st[src] && st[dst][k].Ref? && st[src][k].Ref?
      requires first ==> Sharing(s0, st, dst, v, src, u, d, left) && k in d && d[k].Branch? && !HasNil(d[k]) && IsMap(u.entries[k])
      requires again ==> Absorbs(st, dst, src, u)
      modifies this
      ensures Valid() && src in st && st[src] == old(st)[src]
      ensures first ==> Sharing(s0, st, dst, v, src, u, d[k := Branch(Merge(d[k].entries, u.entries[k]))], left - {k})
      ensures again ==> st == old(st)
      decreases u.entries[k], 2
    {
      ghost var before := st;
      assert again ==> AbsorbsAt(before, dst, src, u, k);
      if again { AbsorbsChild(before, dst, src, u, k); }
      if first { ChildReady(s0, before, dst, v, src, u, d, left, k); }
      MergeAliasing(st[dst][k].addr, st[src][k].addr, if first then d[k] else NilMap, u.entries[k]);
      if first { ChildShared(s0, before, st, dst, v, src, u, d, left, k); }
    }
  }

  /** Neither merge changes the source. The copying one leaves dst and the source without a common map object: later
      changes of one never show in the other. */
  lemma SourceUnchanged(s0: Store, st: Store, dst: Addr, v: Value, src: Cell, u: Value, copy: bool, d: Dict)
    requires Mergeable(s0, dst, v, src, u, copy) && Merged(s0, st, dst, v, src, u, copy, d)
    ensures Shows(st, src, u) && Foot(st, src, u) == Foot(s0, src, u)
    ensures copy ==> Foot(st, Ref(dst), Branch(d)) !! Foot(st, src, u)
  {
    FootAllocated(s0, src, u);
    Framed(s0, st, src, u);
  }

  /** The same source can be merged in again: after a copying merge always, after one that aliases unless something of
      the source is shared by then. */
  lemma MergeableAgain(s0: Store, st: Store, dst: Addr, v: Value, src: Cell, u: Value, copy: bool, d: Dict)
    requires Mergeable(s0, dst, v, src, u, copy) && Merged(s0, st, dst, v, src, u, copy, d)
    ensures Shows(st, src, u)
    ensures Mergeable(st, dst, Branch(d), src, u, copy) <==> Foot(st, Ref(dst), Branch(d)) !! Foot(st, src, u)
    ensures copy ==> Mergeable(st, dst, Branch(d), src, u, copy)
  {
    SourceUnchanged(s0, st, dst, v, src, u, copy, d);
    FootAllocated(s0, src, u);
    Framed(s0, st, src, u);
  }
}
