/**
 Which message data is acceptable, said of the properties and items themselves: an object is acceptable when it is plain
 and every value in it unfolds, with the sizes of all of them adding up within the limits.
 */
module DataMeaning {
  import opened Prelude
  import opened DataValidator

  function Total(s: seq<nat>): nat {
    if s == [] then 0 else s[0] + Total(s[1..])
  }

  lemma {:induction false} TotalAppend(s: seq<nat>, x: nat)
    ensures Total(s + [x]) == Total(s) + x
  {
    if s == [] {
      assert Total([x]) == x;
    } else {
      TotalAppend(s[1..], x);
      assert (s + [x])[1..] == s[1..] + [x];
    }
  }

  lemma {:induction false} TotalAtLeast(s: seq<nat>)
    requires forall i :: 0 <= i < |s| ==> s[i] >= 1
    ensures Total(s) >= |s|
  {
    if s != [] {
      TotalAtLeast(s[1..]);
    }
  }

  function NodeCounts(us: seq<Tree>): (r: seq<nat>)
    ensures |r| == |us| && forall i :: 0 <= i < |us| ==> r[i] == Nodes(us[i]) >= 1
  {
    seq(|us|, i requires 0 <= i < |us| => Nodes(us[i]))
  }

  function TextCounts(us: seq<Tree>): (r: seq<nat>)
    ensures |r| == |us| && forall i :: 0 <= i < |us| ==> r[i] == TextOf(us[i])
  {
    seq(|us|, i requires 0 <= i < |us| => TextOf(us[i]))
  }

  predicate AllLower(us: seq<Tree>, bound: nat) {
    forall i :: 0 <= i < |us| ==> Height(us[i]) < bound
  }

  /** `us` are the unfoldings of the values of a cell: its items, or its property values. */
  ghost predicate PartsUnfold(heap: Heap, c: Cell, us: seq<Tree>) {
    match c
    case ArrayCell(_, _, _, items) =>
      |us| == |items| && forall i :: 0 <= i < |items| ==> items[i].Some? && Unfolds(heap, items[i].value, us[i])
    case ObjectCell(_, _, properties) =>
      |us| == |properties| && forall i :: 0 <= i < |properties| ==> Unfolds(heap, properties[i].value, us[i])
  }

  /** What is asked of an object itself, other than its size. */
  predicate Presentable(c: Cell) {
    && c.plainPrototype && !c.hook
    && match c
       case ArrayCell(_, _, ownKeys, items) => ownKeys == |items| + 1
       case ObjectCell(_, _, properties) =>
         forall i :: 0 <= i < |properties| ==>
           properties[i].enumerable && properties[i].key.Some? && properties[i].key.value.wellFormed
  }

  /** The lengths of the keys of an object; an array has none. */
  function KeyLengths(c: Cell): (r: seq<nat>)
    requires Presentable(c)
    ensures c.ObjectCell? ==> |r| == |c.properties|
                              && forall i :: 0 <= i < |r| ==> r[i] == c.properties[i].key.value.length
    ensures c.ArrayCell? ==> r == []
  {
    if c.ArrayCell? then []
    else seq(|c.properties|, i requires 0 <= i < |c.properties| => c.properties[i].key.value.length)
  }

  // ---------------------------------------------------------------------------------
  // Forests as sequences
  // ---------------------------------------------------------------------------------

  function Trees(f: Forest): seq<Tree> {
    match f
    case Empty => []
    case More(t, rest) => [t] + Trees(rest)
  }

  function ForestOf(us: seq<Tree>): (f: Forest)
    ensures Trees(f) == us
  {
    if us == [] then Empty else More(us[0], ForestOf(us[1..]))
  }

  lemma {:induction false} TreesCount(f: Forest)
    ensures NodesAll(f) == Total(NodeCounts(Trees(f))) && TextAll(f) == Total(TextCounts(Trees(f)))
  {
    match f
    case Empty =>
    case More(t, rest) =>
      TreesCount(rest);
      assert Trees(f)[1..] == Trees(rest);
      assert NodeCounts(Trees(f))[1..] == NodeCounts(Trees(rest));
      assert TextCounts(Trees(f))[1..] == TextCounts(Trees(rest));
  }

  lemma {:induction false} TreesHeight(f: Forest, bound: nat)
    ensures HeightAll(f) < bound <==> AllLower(Trees(f), bound)
  {
    match f
    case Empty =>
    case More(t, rest) =>
      TreesHeight(rest, bound);
      assert Trees(f) == [t] + Trees(rest);
      assert forall i :: 0 <= i < |Trees(rest)| ==> Trees(f)[i + 1] == Trees(rest)[i];
      if AllLower(Trees(f), bound) {
        assert Height(Trees(f)[0]) < bound;
      }
  }

  lemma {:induction false} TreesUnfold(heap: Heap, vs: seq<Value>, f: Forest)
    ensures UnfoldsAll(heap, vs, f)
       <==> |Trees(f)| == |vs| && forall i :: 0 <= i < |vs| ==> Unfolds(heap, vs[i], Trees(f)[i])
    decreases f
  {
    match f
    case Empty =>
    case More(t, rest) =>
      assert Trees(f) == [t] + Trees(rest);
      if vs != [] {
        TreesUnfold(heap, vs[1..], rest);
        assert forall i :: 0 <= i < |Trees(rest)| ==> Trees(f)[i + 1] == Trees(rest)[i];
        if |Trees(f)| == |vs| && forall i :: 0 <= i < |vs| ==> Unfolds(heap, vs[i], Trees(f)[i]) {
          assert Unfolds(heap, vs[0], Trees(f)[0]);
          forall i | 0 <= i < |vs[1..]| ensures Unfolds(heap, vs[1..][i], Trees(rest)[i]) {
            assert Unfolds(heap, vs[i + 1], Trees(f)[i + 1]);
          }
        }
      }
  }

  // ---------------------------------------------------------------------------------
  // One object
  // ---------------------------------------------------------------------------------

  lemma {:induction false} KeysTotal(properties: seq<Property>)
    requires Presentable(ObjectCell(true, false, properties))
    ensures forall i :: 0 <= i < |properties| ==> PropertyOk(properties[i])
    ensures KeysLength(properties) == Total(KeyLengths(ObjectCell(true, false, properties)))
  {
    if properties != [] {
      var n := |properties| - 1;
      KeysTotal(properties[..n]);
      var before := KeyLengths(ObjectCell(true, false, properties[..n]));
      TotalAppend(before, properties[n].key.value.length);
      assert KeyLengths(ObjectCell(true, false, properties)) == before + [properties[n].key.value.length];
    }
  }

  lemma OwnTextTotal(c: Cell)
    requires Presentable(c) && LocallyValid(c)
    ensures OwnText(c) == Total(KeyLengths(c))
  {
    if c.ObjectCell? {
      KeysTotal(c.properties);
    }
  }

  /** Apart from the length of an array, an object is locally valid when it is presentable and has no hole. */
  lemma LocalIsPresentable(c: Cell)
    ensures LocallyValid(c) <==>
              && Presentable(c)
              && (c.ArrayCell? ==> |c.items| <= MAX_NODES && forall i :: 0 <= i < |c.items| ==> c.items[i].Some?)
  {
    if c.ObjectCell? {
      assert forall i :: 0 <= i < |c.properties| ==>
               (PropertyOk(c.properties[i]) <==>
                c.properties[i].enumerable && c.properties[i].key.Some? && c.properties[i].key.value.wellFormed);
    }
  }

  lemma PartsAreChildren(heap: Heap, c: Cell, f: Forest)
    requires LocallyValid(c)
    ensures UnfoldsAll(heap, Children(c), f) <==> PartsUnfold(heap, c, Trees(f))
  {
    TreesUnfold(heap, Children(c), f);
    if c.ArrayCell? {
      assert forall i :: 0 <= i < |c.items| ==> Children(c)[i] == c.items[i].value;
    } else {
      assert forall i :: 0 <= i < |c.properties| ==> Children(c)[i] == c.properties[i].value;
    }
  }

  /**
   An object that unfolds has an unfolding of every property value and item.  Its nodes are one more than theirs
   together, its text is that of its keys and theirs, and it is one level higher than the highest of them.
   */
  lemma ObjectUnfolds(heap: Heap, id: nat, t: Tree) returns (us: seq<Tree>)
    requires Unfolds(heap, Ref(id), t)
    ensures Presentable(heap(id)) && PartsUnfold(heap, heap(id), us)
    ensures Nodes(t) == 1 + Total(NodeCounts(us))
    ensures TextOf(t) == Total(KeyLengths(heap(id))) + Total(TextCounts(us))
    ensures forall bound: nat :: AllLower(us, bound) <==> Height(t) <= bound
  {
    hide LocallyValid, Presentable, Children, OwnText, PartsUnfold;
    LocalIsPresentable(heap(id));
    PartsAreChildren(heap, heap(id), t.children);
    OwnTextTotal(heap(id));
    TreesCount(t.children);
    us := Trees(t.children);
    forall bound: nat ensures AllLower(us, bound) <==> Height(t) <= bound {
      TreesHeight(t.children, bound);
    }
  }

  /** And conversely the unfoldings of its parts make one of the object. */
  lemma PartsMakeObject(heap: Heap, id: nat, us: seq<Tree>) returns (t: Tree)
    requires Presentable(heap(id)) && PartsUnfold(heap, heap(id), us) && |us| <= MAX_NODES
    ensures Unfolds(heap, Ref(id), t)
    ensures Nodes(t) == 1 + Total(NodeCounts(us))
    ensures TextOf(t) == Total(KeyLengths(heap(id))) + Total(TextCounts(us))
    ensures forall bound: nat :: AllLower(us, bound) <==> Height(t) <= bound
  {
    hide Children, OwnText;
    LocalIsPresentable(heap(id));
    t := Tree(OwnText(heap(id)), ForestOf(us));
    PartsAreChildren(heap, heap(id), t.children);
    OwnTextTotal(heap(id));
    TreesCount(t.children);
    forall bound: nat ensures AllLower(us, bound) <==> Height(t) <= bound {
      TreesHeight(t.children, bound);
    }
  }

  /** The parts of an object fit into it, together with the object itself and its keys. */
  ghost predicate PartsFit(c: Cell, us: seq<Tree>)
    requires Presentable(c)
  {
    && 1 + Total(NodeCounts(us)) <= 2_048
    && Total(KeyLengths(c)) + Total(TextCounts(us)) <= 65_536
    && AllLower(us, 32)
  }

  /**
   Acceptable objects, by what is in them.  The early check of an array's length does not appear: it never rejects what
   the node limit would let pass.
   */
  lemma AcceptableObject(heap: Heap, id: nat)
    ensures Acceptable(heap, Ref(id)) <==>
              Presentable(heap(id)) && exists us :: PartsUnfold(heap, heap(id), us) && PartsFit(heap(id), us)
  {
    hide Presentable, PartsUnfold, Unfolds;
    if Acceptable(heap, Ref(id)) {
      var t :| Unfolds(heap, Ref(id), t) && Nodes(t) <= MAX_NODES && Height(t) <= MAX_DEPTH && TextOf(t) <= MAX_TEXT;
      var us := ObjectUnfolds(heap, id, t);
      assert PartsUnfold(heap, heap(id), us) && PartsFit(heap(id), us);
    }
    if Presentable(heap(id)) {
      if us :| PartsUnfold(heap, heap(id), us) && PartsFit(heap(id), us) {
        TotalAtLeast(NodeCounts(us));
        var t := PartsMakeObject(heap, id, us);
        assert Unfolds(heap, Ref(id), t) && Height(t) <= MAX_DEPTH;
      }
    }
  }

  /** A value that is not an object. */
  lemma AcceptableLeaf(heap: Heap, v: Value)
    requires !v.Ref?
    ensures Acceptable(heap, v) <==> v.Plain? || (v.Text? && v.text.wellFormed && v.text.length <= 65_536)
  {
    var t := Tree(if v.Text? then v.text.length else 0, Empty);
    assert NodesAll(Empty) == 0 && TextAll(Empty) == 0 && HeightAll(Empty) == -1;
    assert Nodes(t) == 1 && TextOf(t) == t.text && Height(t) == 0;
    if v.Plain? || (v.Text? && v.text.wellFormed) {
      assert Unfolds(heap, v, t);
      forall u | Unfolds(heap, v, u) ensures u == t {
        UnfoldingUnique(heap, v, t, u);
      }
    }
  }

  /** So one bad property value, at whatever place, makes the object unacceptable. */
  lemma BadProperty(heap: Heap, id: nat, i: nat)
    requires heap(id).ObjectCell? && i < |heap(id).properties|
    requires !Acceptable(heap, heap(id).properties[i].value)
    ensures !Acceptable(heap, Ref(id))
  {
    hide Unfolds, Acceptable, Presentable;
    AcceptableObject(heap, id);
    if Presentable(heap(id)) {
      if us :| PartsUnfold(heap, heap(id), us) && PartsFit(heap(id), us) {
        PartAcceptable(heap, heap(id), us, heap(id).properties[i].value, i);
      }
    }
  }

  /** And so does one bad item. */
  lemma BadItem(heap: Heap, id: nat, i: nat)
    requires heap(id).ArrayCell? && i < |heap(id).items|
    requires heap(id).items[i].None? || !Acceptable(heap, heap(id).items[i].value)
    ensures !Acceptable(heap, Ref(id))
  {
    hide Unfolds, Acceptable, Presentable;
    AcceptableObject(heap, id);
    if Presentable(heap(id)) {
      if us :| PartsUnfold(heap, heap(id), us) && PartsFit(heap(id), us) {
        assert heap(id).items[i].Some?;
        PartAcceptable(heap, heap(id), us, heap(id).items[i].value, i);
      }
    }
  }

  /** Object `b` is a property value or an item of object `a`. */
  predicate Contains(c: Cell, b: nat) {
    match c
    case ArrayCell(_, _, _, items) => Some(Ref(b)) in items
    case ObjectCell(_, _, properties) => exists i :: 0 <= i < |properties| && properties[i].value == Ref(b)
  }

  /** Each object of the path contains the next one. */
  predicate IsPath(heap: Heap, path: seq<nat>) {
    path != [] && forall k :: 0 <= k < |path| - 1 ==> Contains(heap(path[k]), path[k + 1])
  }

  lemma ContainedIsSmaller(heap: Heap, a: nat, b: nat, t: Tree) returns (u: Tree)
    requires Unfolds(heap, Ref(a), t) && Contains(heap(a), b)
    ensures Unfolds(heap, Ref(b), u) && Nodes(u) < Nodes(t)
  {
    hide Unfolds, Nodes;
    var us := ObjectUnfolds(heap, a, t);
    var i :| 0 <= i < |us| && Unfolds(heap, Ref(b), us[i]);
    TotalHas(NodeCounts(us), i);
    u := us[i];
  }

  lemma {:induction false} PathShrinks(heap: Heap, path: seq<nat>, t: Tree) returns (u: Tree)
    requires IsPath(heap, path) && Unfolds(heap, Ref(path[0]), t)
    ensures Unfolds(heap, Ref(path[|path| - 1]), u) && Nodes(u) <= Nodes(t) - (|path| - 1)
  {
    hide Unfolds, Nodes, Contains;
    u := t;
    if |path| > 1 {
      var next := ContainedIsSmaller(heap, path[0], path[1], t);
      u := PathShrinks(heap, path[1..], next);
    }
  }

  /** Data that leads back to itself, through properties and items in any mixture, is never acceptable. */
  lemma CyclicData(heap: Heap, path: seq<nat>)
    requires IsPath(heap, path) && |path| >= 2 && path[0] == path[|path| - 1]
    ensures !Acceptable(heap, Ref(path[0]))
  {
    hide Unfolds, Nodes, IsPath;
    if t :| Unfolds(heap, Ref(path[0]), t) {
      var u := PathShrinks(heap, path, t);
      UnfoldingUnique(heap, Ref(path[0]), t, u);
    }
  }

  lemma PartAcceptable(heap: Heap, c: Cell, us: seq<Tree>, v: Value, i: nat)
    requires Presentable(c) && PartsFit(c, us) && i < |us| && Unfolds(heap, v, us[i])
    ensures Acceptable(heap, v)
  {
    hide Unfolds;
    TotalHas(NodeCounts(us), i);
    TotalHas(TextCounts(us), i);
    assert Height(us[i]) < 32;
  }

  lemma {:induction false} TotalHas(s: seq<nat>, i: nat)
    requires i < |s|
    ensures s[i] <= Total(s)
  {
    if i > 0 {
      TotalHas(s[1..], i - 1);
    }
  }
}
