/**
 The structure check for transactional message data (packages/openapi/runtime.ts): an explicit-stack walk over an object
 graph that may be shared or cyclic.  It is proved to accept exactly the graphs whose tree unfolding is finite, locally
 valid and within the node, depth and text limits.
 */
module DataValidator {
  import opened Prelude

  const MAX_NODES := 2_048
  const MAX_DEPTH := 32
  const MAX_TEXT := 65_536

  /** A string, as far as the check looks at it: UTF-16 length and well-formedness. */
  datatype Str = Str(length: nat, wellFormed: bool)

  /** `Forbidden` is undefined, a bigint, function, symbol or non-finite number; `Plain` any other primitive. */
  datatype Value = Text(text: Str) | Plain | Forbidden | Ref(id: nat)

  /** An own property; a symbol key is `None`, and an accessor has the value undefined. */
  datatype Property = Property(key: Option<Str>, enumerable: bool, value: Value)

  /** An array with `None` for holes, or an object.  `hook` says that a toJSON hook is found on its prototype chain. */
  datatype Cell =
    | ArrayCell(plainPrototype: bool, hook: bool, ownKeys: nat, items: seq<Option<Value>>)
    | ObjectCell(plainPrototype: bool, hook: bool, properties: seq<Property>)

  /** The objects of a graph by identity. */
  type Heap = nat -> Cell

  predicate PropertyOk(p: Property) {
    p.key.Some? && p.key.value.wellFormed && p.enumerable
  }

  /** What is required of an object by itself. */
  predicate LocallyValid(c: Cell) {
    match c
    case ArrayCell(plain, hook, ownKeys, items) =>
      && plain && !hook && |items| <= MAX_NODES && ownKeys == |items| + 1
      && forall i :: 0 <= i < |items| ==> items[i].Some?
    case ObjectCell(plain, hook, properties) =>
      plain && !hook && forall i :: 0 <= i < |properties| ==> PropertyOk(properties[i])
  }

  function ItemValues(items: seq<Option<Value>>): (r: seq<Value>)
    requires forall i :: 0 <= i < |items| ==> items[i].Some?
    ensures |r| == |items| && forall i :: 0 <= i < |r| ==> r[i] == items[i].value
  {
    seq(|items|, i requires 0 <= i < |items| => items[i].value)
  }

  function PropertyValues(properties: seq<Property>): (r: seq<Value>)
    ensures |r| == |properties| && forall i :: 0 <= i < |r| ==> r[i] == properties[i].value
  {
    seq(|properties|, i requires 0 <= i < |properties| => properties[i].value)
  }

  function Children(c: Cell): seq<Value>
    requires LocallyValid(c)
  {
    if c.ArrayCell? then ItemValues(c.items) else PropertyValues(c.properties)
  }

  function KeysLength(properties: seq<Property>): nat
    requires forall i :: 0 <= i < |properties| ==> PropertyOk(properties[i])
  {
    if properties == [] then 0
    else
      var last := properties[|properties| - 1];
      assert PropertyOk(last);
      KeysLength(properties[..|properties| - 1]) + last.key.value.length
  }

  /** The text an object itself holds: its keys. */
  function OwnText(c: Cell): nat
    requires LocallyValid(c)
  {
    if c.ArrayCell? then 0 else KeysLength(c.properties)
  }

  // ---------------------------------------------------------------------------------
  // Tree unfoldings
  // ---------------------------------------------------------------------------------

  datatype Tree = Tree(text: nat, children: Forest)
  datatype Forest = Empty | More(first: Tree, rest: Forest)

  function Nodes(t: Tree): (n: nat)
    ensures n >= 1
  {
    1 + NodesAll(t.children)
  }

  function NodesAll(f: Forest): nat {
    match f
    case Empty => 0
    case More(t, rest) => Nodes(t) + NodesAll(rest)
  }

  function TextOf(t: Tree): nat {
    t.text + TextAll(t.children)
  }

  function TextAll(f: Forest): nat {
    match f
    case Empty => 0
    case More(t, rest) => TextOf(t) + TextAll(rest)
  }

  /** The depth of the deepest node, the root having depth 0. */
  function Height(t: Tree): (h: int)
    ensures h >= 0
  {
    1 + HeightAll(t.children)
  }

  function HeightAll(f: Forest): (h: int)
    ensures h >= -1
  {
    match f
    case Empty => -1
    case More(t, rest) => if Height(t) >= HeightAll(rest) then Height(t) else HeightAll(rest)
  }

  /** `t` is the finite unfolding of `v`, and every node of it is locally valid. */
  ghost predicate Unfolds(heap: Heap, v: Value, t: Tree)
    decreases t
  {
    match v
    case Text(s) => s.wellFormed && t == Tree(s.length, Empty)
    case Plain => t == Tree(0, Empty)
    case Forbidden => false
    case Ref(id) =>
      && LocallyValid(heap(id))
      && t.text == OwnText(heap(id))
      && UnfoldsAll(heap, Children(heap(id)), t.children)
  }

  ghost predicate UnfoldsAll(heap: Heap, vs: seq<Value>, f: Forest)
    decreases f
  {
    match f
    case Empty => vs == []
    case More(t, rest) => vs != [] && Unfolds(heap, vs[0], t) && UnfoldsAll(heap, vs[1..], rest)
  }

  /** The data that may be sent. */
  ghost predicate Acceptable(heap: Heap, v: Value) {
    exists t :: Unfolds(heap, v, t) && Nodes(t) <= MAX_NODES && Height(t) <= MAX_DEPTH && TextOf(t) <= MAX_TEXT
  }

  /** A value has at most one unfolding. */
  lemma {:induction false} UnfoldingUnique(heap: Heap, v: Value, t: Tree, u: Tree)
    requires Unfolds(heap, v, t) && Unfolds(heap, v, u)
    ensures t == u
    decreases t
  {
    if v.Ref? {
      UnfoldingsUnique(heap, Children(heap(v.id)), t.children, u.children);
    }
  }

  lemma {:induction false} UnfoldingsUnique(heap: Heap, vs: seq<Value>, f: Forest, g: Forest)
    requires UnfoldsAll(heap, vs, f) && UnfoldsAll(heap, vs, g)
    ensures f == g
    decreases f
  {
    if f.More? && g.More? {
      UnfoldingUnique(heap, vs[0], f.first, g.first);
      UnfoldingsUnique(heap, vs[1..], f.rest, g.rest);
    }
  }

  // ---------------------------------------------------------------------------------
  // Unfolding to a bounded depth
  // ---------------------------------------------------------------------------------

  /** The unfolding of `v` if its height is at most `fuel`. */
  ghost function Unfold(heap: Heap, v: Value, fuel: int): Option<Tree>
    decreases fuel, 1, 0
  {
    if fuel < 0 then None
    else
      match v
      case Text(s) => if s.wellFormed then Some(Tree(s.length, Empty)) else None
      case Plain => Some(Tree(0, Empty))
      case Forbidden => None
      case Ref(id) =>
        if !LocallyValid(heap(id)) then None
        else
          match UnfoldAll(heap, Children(heap(id)), fuel - 1)
          case None => None
          case Some(f) => Some(Tree(OwnText(heap(id)), f))
  }

  ghost function UnfoldAll(heap: Heap, vs: seq<Value>, fuel: int): Option<Forest>
    decreases fuel, 2, |vs|
  {
    if vs == [] then Some(Empty)
    else
      match Unfold(heap, vs[0], fuel)
      case None => None
      case Some(t) =>
        match UnfoldAll(heap, vs[1..], fuel)
        case None => None
        case Some(rest) => Some(More(t, rest))
  }

  /** Bounded unfolding finds exactly the unfoldings that fit. */
  lemma {:induction false} UnfoldExact(heap: Heap, v: Value, fuel: int, t: Tree)
    ensures Unfold(heap, v, fuel) == Some(t) <==> Unfolds(heap, v, t) && Height(t) <= fuel
    decreases t
  {
    if fuel >= 0 && v.Ref? && LocallyValid(heap(v.id)) {
      UnfoldAllExact(heap, Children(heap(v.id)), fuel - 1, t.children);
    }
  }

  lemma {:induction false} UnfoldAllExact(heap: Heap, vs: seq<Value>, fuel: int, f: Forest)
    ensures UnfoldAll(heap, vs, fuel) == Some(f) <==> UnfoldsAll(heap, vs, f) && (vs == [] || HeightAll(f) <= fuel)
    decreases f
  {
    if vs != [] && f.More? {
      UnfoldExact(heap, vs[0], fuel, f.first);
      UnfoldAllExact(heap, vs[1..], fuel, f.rest);
    }
  }

  // ---------------------------------------------------------------------------------
  // The stack
  // ---------------------------------------------------------------------------------

  /** A value still to visit at its depth, or the end of the visit of an object. */
  datatype Frame = Enter(value: Value, depth: nat) | Exit(id: nat)

  datatype Cost = Cost(nodes: nat, text: nat)

  function Plus(a: Option<Cost>, b: Option<Cost>): Option<Cost> {
    if a.Some? && b.Some? then Some(Cost(a.value.nodes + b.value.nodes, a.value.text + b.value.text)) else None
  }

  ghost function FrameCost(heap: Heap, frame: Frame): Option<Cost> {
    if frame.Exit? then Some(Cost(0, 0))
    else
      match Unfold(heap, frame.value, MAX_DEPTH - frame.depth)
      case None => None
      case Some(t) => Some(Cost(Nodes(t), TextOf(t)))
  }

  /** What the rest of the walk will count, or `None` if it has to fail. */
  ghost function Pending(heap: Heap, stack: seq<Frame>): Option<Cost> {
    if stack == [] then Some(Cost(0, 0))
    else Plus(Pending(heap, stack[..|stack| - 1]), FrameCost(heap, stack[|stack| - 1]))
  }

  /** The walk can still end within the limits. */
  ghost predicate Fits(heap: Heap, stack: seq<Frame>, nodes: nat, text: nat) {
    var c := Pending(heap, stack);
    c.Some? && nodes + c.value.nodes <= MAX_NODES && text + c.value.text <= MAX_TEXT
  }

  lemma {:induction false} PendingAppend(heap: Heap, a: seq<Frame>, b: seq<Frame>)
    ensures Pending(heap, a + b) == Plus(Pending(heap, a), Pending(heap, b))
  {
    hide FrameCost;
    if b == [] {
      assert a + b == a;
    } else {
      var n := |b| - 1;
      PendingAppend(heap, a, b[..n]);
      assert (a + b)[..|a| + n] == a + b[..n];
    }
  }

  lemma PendingOne(heap: Heap, frame: Frame)
    ensures Pending(heap, [frame]) == FrameCost(heap, frame)
  {
    assert [frame][..0] == [];
  }

  function Frames(vs: seq<Value>, depth: nat): (r: seq<Frame>)
    ensures |r| == |vs| && forall i :: 0 <= i < |r| ==> r[i] == Enter(vs[i], depth)
  {
    seq(|vs|, i requires 0 <= i < |vs| => Enter(vs[i], depth))
  }

  function Reverse<T>(s: seq<T>): (r: seq<T>)
    ensures |r| == |s| && forall i :: 0 <= i < |s| ==> r[i] == s[|s| - 1 - i]
  {
    seq(|s|, i requires 0 <= i < |s| => s[|s| - 1 - i])
  }

  ghost function ForestCost(f: Option<Forest>): Option<Cost> {
    if f.Some? then Some(Cost(NodesAll(f.value), TextAll(f.value))) else None
  }

  lemma UnfoldAllStep(heap: Heap, vs: seq<Value>, depth: nat)
    requires vs != []
    ensures ForestCost(UnfoldAll(heap, vs, MAX_DEPTH - depth))
         == Plus(FrameCost(heap, Enter(vs[0], depth)), ForestCost(UnfoldAll(heap, vs[1..], MAX_DEPTH - depth)))
  {
    hide Unfold, Nodes, TextOf;
  }

  /** The order of the frames does not matter. */
  lemma {:induction false} PendingReverse(heap: Heap, frames: seq<Frame>)
    ensures Pending(heap, Reverse(frames)) == Pending(heap, frames)
  {
    hide FrameCost;
    if frames == [] {
      assert Reverse(frames) == frames;
    } else {
      var n := |frames| - 1;
      PendingReverse(heap, frames[..n]);
      PendingOne(heap, frames[n]);
      PendingAppend(heap, [frames[n]], Reverse(frames[..n]));
      assert Reverse(frames) == [frames[n]] + Reverse(frames[..n]);
    }
  }

  /** Children cost what their unfoldings cost. */
  lemma {:induction false} FramesCost(heap: Heap, vs: seq<Value>, depth: nat)
    ensures Pending(heap, Frames(vs, depth)) == ForestCost(UnfoldAll(heap, vs, MAX_DEPTH - depth))
  {
    hide FrameCost, Unfold, Pending;
    if vs == [] {
      PendingNone(heap);
    } else {
      FramesCost(heap, vs[1..], depth);
      UnfoldAllStep(heap, vs, depth);
      PendingOne(heap, Enter(vs[0], depth));
      PendingAppend(heap, [Enter(vs[0], depth)], Frames(vs[1..], depth));
      assert Frames(vs, depth) == [Enter(vs[0], depth)] + Frames(vs[1..], depth);
    }
  }

  lemma PendingNone(heap: Heap)
    ensures Pending(heap, []) == Some(Cost(0, 0))
  {
  }

  /** The frames that stand for an object's children, in the order the walk pushes them. */
  function ChildFrames(c: Cell, depth: nat): (r: seq<Frame>)
    requires LocallyValid(c)
    ensures |r| == |Children(c)|
    ensures forall i :: 0 <= i < |r| ==> r[i].Enter? && r[i].value in Children(c)
  {
    if c.ArrayCell? then Reverse(Frames(Children(c), depth)) else Frames(Children(c), depth)
  }

  lemma UnfoldObject(heap: Heap, id: nat, depth: nat)
    requires LocallyValid(heap(id)) && depth <= MAX_DEPTH
    ensures FrameCost(heap, Enter(Ref(id), depth))
         == Plus(Some(Cost(1, OwnText(heap(id)))),
                 ForestCost(UnfoldAll(heap, Children(heap(id)), MAX_DEPTH - (depth + 1))))
  {
  }

  /** Entering an object trades its frame for one node, its keys, an exit frame and its children. */
  lemma EnterObject(heap: Heap, below: seq<Frame>, id: nat, depth: nat, nodes: nat, text: nat)
    requires LocallyValid(heap(id)) && depth <= MAX_DEPTH
    ensures Fits(heap, below + [Enter(Ref(id), depth)], nodes, text)
       <==> Fits(heap, below + [Exit(id)] + ChildFrames(heap(id), depth + 1), nodes + 1, text + OwnText(heap(id)))
  {
    hide LocallyValid, FrameCost, UnfoldAll, ForestCost, Pending, OwnText;
    UnfoldObject(heap, id, depth);
    FramesCost(heap, Children(heap(id)), depth + 1);
    PendingReverse(heap, Frames(Children(heap(id)), depth + 1));
    PendingOne(heap, Enter(Ref(id), depth));
    PendingOne(heap, Exit(id));
    ExitIsFree(heap, id);
    PendingAppend(heap, below, [Enter(Ref(id), depth)]);
    PendingAppend(heap, below, [Exit(id)]);
    PendingAppend(heap, below + [Exit(id)], ChildFrames(heap(id), depth + 1));
  }

  lemma ExitIsFree(heap: Heap, id: nat)
    ensures FrameCost(heap, Exit(id)) == Some(Cost(0, 0))
  {
  }

  /** Popping the top frame accounts for it. */
  lemma PopFrame(heap: Heap, stack: seq<Frame>, nodes: nat, text: nat)
    requires stack != []
    ensures var top, below := stack[|stack| - 1], stack[..|stack| - 1];
            Fits(heap, stack, nodes, text) <==>
              FrameCost(heap, top).Some?
              && Fits(heap, below, nodes + FrameCost(heap, top).value.nodes, text + FrameCost(heap, top).value.text)
  {
  }

  // ---------------------------------------------------------------------------------
  // Ancestors
  // ---------------------------------------------------------------------------------

  /** Whenever object `a` has a finite unfolding, `v` has a strictly smaller one. */
  ghost predicate Below(heap: Heap, a: nat, v: Value) {
    forall t :: Unfolds(heap, Ref(a), t) ==> HasSmaller(heap, v, Nodes(t))
  }

  ghost predicate HasSmaller(heap: Heap, v: Value, bound: nat) {
    exists u :: Unfolds(heap, v, u) && Nodes(u) < bound
  }

  lemma {:induction false} MemberSmaller(heap: Heap, vs: seq<Value>, f: Forest, v: Value)
    requires UnfoldsAll(heap, vs, f) && v in vs
    ensures HasSmaller(heap, v, NodesAll(f) + 1)
    decreases f
  {
    if v == vs[0] {
      assert Unfolds(heap, v, f.first);
    } else {
      assert v in vs[1..];
      MemberSmaller(heap, vs[1..], f.rest, v);
    }
  }

  lemma ChildBelow(heap: Heap, id: nat, v: Value)
    requires LocallyValid(heap(id)) && v in Children(heap(id))
    ensures Below(heap, id, v)
  {
    forall t | Unfolds(heap, Ref(id), t) ensures HasSmaller(heap, v, Nodes(t)) {
      MemberSmaller(heap, Children(heap(id)), t.children, v);
    }
  }

  lemma BelowTransitive(heap: Heap, a: nat, b: nat, v: Value)
    requires Below(heap, a, Ref(b)) && Below(heap, b, v)
    ensures Below(heap, a, v)
  {
    forall t | Unfolds(heap, Ref(a), t) ensures HasSmaller(heap, v, Nodes(t)) {
      assert HasSmaller(heap, Ref(b), Nodes(t));
      var u :| Unfolds(heap, Ref(b), u) && Nodes(u) < Nodes(t);
      assert HasSmaller(heap, v, Nodes(u));
    }
  }

  /** An object below itself has no finite unfolding. */
  lemma CycleHasNoUnfolding(heap: Heap, id: nat, fuel: int)
    requires Below(heap, id, Ref(id))
    ensures Unfold(heap, Ref(id), fuel) == None
  {
    hide Unfold, Unfolds, Nodes;
    if Unfold(heap, Ref(id), fuel).Some? {
      var t := Unfold(heap, Ref(id), fuel).value;
      UnfoldExact(heap, Ref(id), fuel, t);
      assert HasSmaller(heap, Ref(id), Nodes(t));
      var u :| Unfolds(heap, Ref(id), u) && Nodes(u) < Nodes(t);
      UnfoldingUnique(heap, Ref(id), t, u);
    }
  }

  function Subject(frame: Frame): Value {
    if frame.Exit? then Ref(frame.id) else frame.value
  }

  /** Every frame is below the objects whose visit has not ended underneath it. */
  ghost predicate Nested(heap: Heap, stack: seq<Frame>) {
    forall p, q :: 0 <= p < q < |stack| && stack[p].Exit? ==> Below(heap, stack[p].id, Subject(stack[q]))
  }

  /** The ancestor set is the set of open visits, each object once. */
  ghost predicate AncestorsAreExits(ancestors: set<nat>, stack: seq<Frame>) {
    && (forall id :: id in ancestors <==> Exit(id) in stack)
    && (forall p, q :: 0 <= p < q < |stack| && stack[p].Exit? ==> stack[p] != stack[q])
  }

  lemma NestedPush(heap: Heap, below: seq<Frame>, id: nat, depth: nat)
    requires LocallyValid(heap(id)) && Nested(heap, below + [Enter(Ref(id), depth)])
    ensures Nested(heap, below + [Exit(id)] + ChildFrames(heap(id), depth + 1))
  {
    hide Below, LocallyValid, Children;
    var old', frames := below + [Enter(Ref(id), depth)], ChildFrames(heap(id), depth + 1);
    var stack := below + [Exit(id)] + frames;
    var n := |below|;
    assert forall p :: 0 <= p < n ==> stack[p] == below[p] == old'[p];
    assert stack[n] == Exit(id) && old'[n] == Enter(Ref(id), depth);
    forall p, q | 0 <= p < q < |stack| && stack[p].Exit? ensures Below(heap, stack[p].id, Subject(stack[q])) {
      if q > n {
        assert stack[q] == frames[q - n - 1];
        ChildBelow(heap, id, Subject(stack[q]));
        assert p <= n;
        if p < n {
          assert Below(heap, old'[p].id, Subject(old'[n]));
          BelowTransitive(heap, stack[p].id, id, Subject(stack[q]));
        }
      } else {
        assert Below(heap, old'[p].id, Subject(old'[q]));
      }
    }
  }

  lemma ExitsPush(ancestors: set<nat>, below: seq<Frame>, id: nat, depth: nat, frames: seq<Frame>)
    requires AncestorsAreExits(ancestors, below + [Enter(Ref(id), depth)]) && id !in ancestors
    requires forall i :: 0 <= i < |frames| ==> frames[i].Enter?
    ensures AncestorsAreExits(ancestors + {id}, below + [Exit(id)] + frames)
  {
    var old', stack := below + [Enter(Ref(id), depth)], below + [Exit(id)] + frames;
    forall x ensures x in ancestors + {id} <==> Exit(x) in stack {
      assert Exit(x) in below <==> Exit(x) in old';
    }
    assert Exit(id) !in old';
    assert forall p :: 0 <= p < |below| ==> stack[p] == old'[p];
  }

  lemma ExitsPop(ancestors: set<nat>, stack: seq<Frame>)
    requires stack != [] && AncestorsAreExits(ancestors, stack)
    ensures var top, below := stack[|stack| - 1], stack[..|stack| - 1];
            AncestorsAreExits(if top.Exit? then ancestors - {top.id} else ancestors, below)
  {
    var top, below := stack[|stack| - 1], stack[..|stack| - 1];
    forall x ensures Exit(x) in stack <==> Exit(x) in below || top == Exit(x) {
      assert stack == below + [top];
    }
    assert top in below ==> top.Enter?;
  }

  // ---------------------------------------------------------------------------------
  // The walk
  // ---------------------------------------------------------------------------------

  /** Pushes array items from the last to the first; a hole is refused. */
  method PushItems(stack: seq<Frame>, items: seq<Option<Value>>, depth: nat) returns (ok: bool, r: seq<Frame>)
    ensures ok <==> forall i :: 0 <= i < |items| ==> items[i].Some?
    ensures ok ==> r == stack + Reverse(Frames(ItemValues(items), depth))
  {
    r := stack;
    var index := |items|;
    while index > 0
      invariant 0 <= index <= |items| && |r| == |stack| + |items| - index
      invariant forall i :: index <= i < |items| ==> items[i].Some?
      invariant forall k :: 0 <= k < |stack| ==> r[k] == stack[k]
      invariant forall k :: |stack| <= k < |r| ==>
                  && items[|items| - 1 - (k - |stack|)].Some?
                  && r[k] == Enter(items[|items| - 1 - (k - |stack|)].value, depth)
    {
      index := index - 1;
      if items[index].None? {
        return false, r;
      }
      r := r + [Enter(items[index].value, depth)];
    }
    ok := true;
  }

  lemma {:induction false} KeysLengthPrefix(properties: seq<Property>, k: nat)
    requires k <= |properties| && forall i :: 0 <= i < |properties| ==> PropertyOk(properties[i])
    ensures KeysLength(properties[..k]) <= KeysLength(properties)
    decreases |properties| - k
  {
    if k == |properties| {
      assert properties[..k] == properties;
    } else {
      KeysLengthPrefix(properties, k + 1);
      assert properties[..k + 1][..k] == properties[..k];
    }
  }

  /** Pushes property values in key order, counting key text; an odd key or too much text is refused. */
  method PushProperties(stack: seq<Frame>, properties: seq<Property>, depth: nat, text: nat)
    returns (ok: bool, r: seq<Frame>, units: nat)
    requires text <= MAX_TEXT
    ensures ok ==> forall i :: 0 <= i < |properties| ==> PropertyOk(properties[i])
    ensures ok ==> units == text + KeysLength(properties) <= MAX_TEXT
    ensures ok ==> r == stack + Frames(PropertyValues(properties), depth)
    ensures !ok && (forall i :: 0 <= i < |properties| ==> PropertyOk(properties[i])) ==>
              text + KeysLength(properties) > MAX_TEXT
  {
    r, units := stack, text;
    for i := 0 to |properties|
      invariant forall k :: 0 <= k < i ==> PropertyOk(properties[k])
      invariant units == text + KeysLength(properties[..i]) <= MAX_TEXT
      invariant r == stack + Frames(PropertyValues(properties[..i]), depth)
    {
      var property := properties[i];
      if !PropertyOk(property) {
        return false, r, units;
      }
      assert properties[..i + 1][..i] == properties[..i];
      units := units + property.key.value.length;
      if units > MAX_TEXT {
        if forall k :: 0 <= k < |properties| ==> PropertyOk(properties[k]) {
          KeysLengthPrefix(properties, i + 1);
        }
        return false, r, units;
      }
      r := r + [Enter(property.value, depth)];
    }
    assert properties[..|properties|] == properties;
    ok := true;
  }

  /** Checks an object by itself and pushes its children. */
  method PushChildren(stack: seq<Frame>, cell: Cell, depth: nat, text: nat) returns (ok: bool, r: seq<Frame>,
                      units: nat)
    requires text <= MAX_TEXT
    ensures ok <==> LocallyValid(cell) && text + OwnText(cell) <= MAX_TEXT
    ensures ok ==> units == text + OwnText(cell) && r == stack + ChildFrames(cell, depth)
  {
    r, units := stack, text;
    if !cell.plainPrototype || (cell.ArrayCell? && |cell.items| > MAX_NODES) || cell.hook {
      return false, r, units;
    }
    if cell.ArrayCell? {
      if cell.ownKeys != |cell.items| + 1 {
        return false, r, units;
      }
      ok, r := PushItems(stack, cell.items, depth);
    } else {
      ok, r, units := PushProperties(stack, cell.properties, depth, text);
    }
  }

  /** A primitive costs one node and its text. */
  lemma PrimitiveCost(heap: Heap, v: Value, depth: nat)
    requires !v.Ref? && depth <= MAX_DEPTH
    ensures FrameCost(heap, Enter(v, depth)) ==
      match v
      case Text(s) => if s.wellFormed then Some(Cost(1, s.length)) else None
      case _ => if v.Plain? then Some(Cost(1, 0)) else None
  {
    assert NodesAll(Empty) == 0 && TextAll(Empty) == 0;
  }

  /** Too deep, locally invalid, or its own ancestor: no way to finish. */
  lemma DeadFrame(heap: Heap, stack: seq<Frame>, nodes: nat, text: nat)
    requires stack != [] && stack[|stack| - 1].Enter?
    requires FrameCost(heap, stack[|stack| - 1]).None?
    ensures !Fits(heap, stack, nodes, text)
  {
  }

  /** A frame still to visit costs at least one node. */
  lemma NoRoom(heap: Heap, stack: seq<Frame>, text: nat)
    requires stack != [] && stack[|stack| - 1].Enter?
    ensures !Fits(heap, stack, MAX_NODES, text)
  {
  }

  lemma ObjectText(heap: Heap, stack: seq<Frame>, nodes: nat, text: nat)
    requires stack != [] && stack[|stack| - 1].Enter? && stack[|stack| - 1].value.Ref?
    requires LocallyValid(heap(stack[|stack| - 1].value.id))
    requires text + OwnText(heap(stack[|stack| - 1].value.id)) > MAX_TEXT
    ensures !Fits(heap, stack, nodes, text)
  {
  }

  /** The walk invariant. */
  ghost predicate Walking(heap: Heap, root: Value, stack: seq<Frame>, ancestors: set<nat>, nodes: nat, text: nat) {
    && nodes <= MAX_NODES && text <= MAX_TEXT
    && (Fits(heap, [Enter(root, 0)], 0, 0) <==> Fits(heap, stack, nodes, text))
    && AncestorsAreExits(ancestors, stack)
    && Nested(heap, stack)
  }

  lemma NestedPop(heap: Heap, stack: seq<Frame>)
    requires stack != [] && Nested(heap, stack)
    ensures Nested(heap, stack[..|stack| - 1])
  {
    hide Below;
  }

  /** Entering a frame: the walk goes on, or it stops because the data is not acceptable. */
  method Visit(heap: Heap, ghost root: Value, stack: seq<Frame>, ancestors: set<nat>, nodes: nat, text: nat)
    returns (ok: bool, stack': seq<Frame>, ancestors': set<nat>, text': nat)
    requires stack != [] && stack[|stack| - 1].Enter? && Walking(heap, root, stack, ancestors, nodes, text)
    ensures ok ==> nodes < MAX_NODES && Walking(heap, root, stack', ancestors', nodes + 1, text')
    ensures !ok ==> !Fits(heap, [Enter(root, 0)], 0, 0)
  {
    hide Fits, Nested, AncestorsAreExits, FrameCost, LocallyValid, Below, ChildFrames, OwnText;
    var top, below := stack[|stack| - 1], stack[..|stack| - 1];
    stack', ancestors', text' := below, ancestors, text;
    if nodes + 1 > MAX_NODES {
      NoRoom(heap, stack, text);
      return false, stack', ancestors', text';
    }
    if top.depth > MAX_DEPTH {
      TooDeep(heap, top);
      DeadFrame(heap, stack, nodes, text);
      return false, stack', ancestors', text';
    }
    if !top.value.Ref? {
      PrimitiveCost(heap, top.value, top.depth);
      PopFrame(heap, stack, nodes, text);
      NestedPop(heap, stack);
      ExitsPop(ancestors, stack);
      if top.value.Forbidden? || (top.value.Text? && !top.value.text.wellFormed) {
        return false, stack', ancestors', text';
      }
      text' := text + if top.value.Text? then top.value.text.length else 0;
      if text' > MAX_TEXT {
        TooMuchText(heap, below, nodes + 1, text');
        return false, stack', ancestors', text';
      }
      return true, stack', ancestors', text';
    }
    var id := top.value.id;
    assert stack == below + [top];
    if id in ancestors {
      AncestorIsCycle(heap, stack, ancestors, id);
      DeadFrame(heap, stack, nodes, text);
      return false, stack', ancestors', text';
    }
    ancestors' := ancestors + {id};
    ok, stack', text' := PushChildren(below + [Exit(id)], heap(id), top.depth + 1, text);
    if ok {
      EnterObject(heap, below, id, top.depth, nodes, text);
      NestedPush(heap, below, id, top.depth);
      ExitsPush(ancestors, below, id, top.depth, ChildFrames(heap(id), top.depth + 1));
    } else if LocallyValid(heap(id)) {
      ObjectText(heap, stack, nodes, text);
    } else {
      InvalidObject(heap, id, top.depth);
      DeadFrame(heap, stack, nodes, text);
    }
  }

  lemma TooDeep(heap: Heap, frame: Frame)
    requires frame.Enter? && frame.depth > MAX_DEPTH
    ensures FrameCost(heap, frame).None?
  {
  }

  lemma TooMuchText(heap: Heap, stack: seq<Frame>, nodes: nat, text: nat)
    requires text > MAX_TEXT
    ensures !Fits(heap, stack, nodes, text)
  {
  }

  lemma InvalidObject(heap: Heap, id: nat, depth: nat)
    requires !LocallyValid(heap(id))
    ensures FrameCost(heap, Enter(Ref(id), depth)).None?
  {
  }

  lemma AncestorIsCycle(heap: Heap, stack: seq<Frame>, ancestors: set<nat>, id: nat)
    requires stack != [] && stack[|stack| - 1].Enter? && stack[|stack| - 1].value == Ref(id) && id in ancestors
    requires Nested(heap, stack) && AncestorsAreExits(ancestors, stack)
    ensures FrameCost(heap, stack[|stack| - 1]).None?
  {
    hide Below;
    var n := |stack| - 1;
    assert Exit(id) in stack;
    var p :| 0 <= p < |stack| && stack[p] == Exit(id);
    assert Below(heap, stack[p].id, Subject(stack[n]));
    CycleHasNoUnfolding(heap, id, MAX_DEPTH - stack[n].depth);
  }

  /** The walk over the graph from one object. */
  method Walk(heap: Heap, root: Value) returns (ok: bool)
    ensures ok <==> Acceptable(heap, root)
  {
    hide Fits, Nested, AncestorsAreExits, Acceptable;
    var stack: seq<Frame> := [Enter(root, 0)];
    var ancestors: set<nat> := {};
    var nodes, text := 0, 0;
    FitsIsAcceptable(heap, root);
    WalkStarts(heap, root);
    while stack != []
      invariant Walking(heap, root, stack, ancestors, nodes, text)
      decreases MAX_NODES - nodes, |stack|
    {
      var top := stack[|stack| - 1];
      if top.Exit? {
        NestedPop(heap, stack);
        ExitsPop(ancestors, stack);
        PopExit(heap, stack, nodes, text);
        stack, ancestors := stack[..|stack| - 1], ancestors - {top.id};
        continue;
      }
      ok, stack, ancestors, text := Visit(heap, root, stack, ancestors, nodes, text);
      if !ok {
        return;
      }
      nodes := nodes + 1;
    }
    AllCounted(heap, nodes, text);
    ok := true;
  }

  lemma PopExit(heap: Heap, stack: seq<Frame>, nodes: nat, text: nat)
    requires stack != [] && stack[|stack| - 1].Exit?
    ensures Fits(heap, stack, nodes, text) <==> Fits(heap, stack[..|stack| - 1], nodes, text)
  {
    PopFrame(heap, stack, nodes, text);
  }

  lemma AllCounted(heap: Heap, nodes: nat, text: nat)
    ensures Fits(heap, [], nodes, text) <==> nodes <= MAX_NODES && text <= MAX_TEXT
  {
  }

  lemma WalkStarts(heap: Heap, root: Value)
    ensures Walking(heap, root, [Enter(root, 0)], {}, 0, 0)
  {
  }

  /** At the start, fitting is being acceptable. */
  lemma FitsIsAcceptable(heap: Heap, root: Value)
    ensures Fits(heap, [Enter(root, 0)], 0, 0) <==> Acceptable(heap, root)
  {
    PendingOne(heap, Enter(root, 0));
    var found := Unfold(heap, root, MAX_DEPTH);
    if found.Some? {
      UnfoldExact(heap, root, MAX_DEPTH, found.value);
    }
    if t :| Unfolds(heap, root, t) && Height(t) <= MAX_DEPTH {
      UnfoldExact(heap, root, MAX_DEPTH, t);
    }
    forall t | Unfolds(heap, root, t) && Height(t) <= MAX_DEPTH ensures found == Some(t) {
      UnfoldExact(heap, root, MAX_DEPTH, t);
    }
  }

  /** The whole check; `polluted` says that a built-in prototype has a toJSON hook. */
  method ValidateTransactionalData(polluted: bool, heap: Heap, data: Option<Value>) returns (ok: bool)
    ensures ok <==> !polluted && (data.Some? ==>
                      data.value.Ref? && heap(data.value.id).ObjectCell? && Acceptable(heap, data.value))
  {
    if polluted {
      return false;
    }
    if data.None? {
      return true;
    }
    if !data.value.Ref? || heap(data.value.id).ArrayCell? {
      return false;
    }
    ok := Walk(heap, data.value);
  }
}
