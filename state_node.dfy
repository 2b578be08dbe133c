/** The state tree of the store library: a node holds a value and keyed child
    nodes; `Node` references build lenses that focus on a node of the tree or
    on its value. */
module StateNodes {
  import opened Lenses

  /** `StateNode(value, children)`. The library stores values of any type and
      casts on read; here every node holds a value of one type `V`. */
  datatype StateNode<K(==), V> = StateNode(value: V, children: map<K, StateNode<K, V>>)

  /** `StateNode(value = v, children = emptyMap())`. */
  function Leaf<K(==), V>(v: V): StateNode<K, V>
  {
    StateNode(v, map[])
  }

  /** A `Node` reference: the root, or `parent.withChild(key, init)`. The
      initializer `init` is pure here, so it stands for the value it returns. */
  datatype Node<K(==), V> = Root | Child(parent: Node<K, V>, key: K, init: V)

  /** One step of a key path: a key and the value of a child created there. */
  datatype Step<K(==), V> = Step(key: K, init: V)

  /** `withChild(key, init)`, on the root and on `DefaultNode` alike. */
  function WithChild<K(==), V>(n: Node<K, V>, key: K, init: V): (c: Node<K, V>)
    ensures Path(c) == Path(n) + [Step(key, init)]
  {
    Child(n, key, init)
  }

  /** The keys that lead from the root to the node `n`. */
  function Path<K(==), V>(n: Node<K, V>): seq<Step<K, V>>
  {
    match n
    case Root => []
    case Child(p, k, i) => Path(p) + [Step(k, i)]
  }

  // The lenses the library builds.

  /** Root `node` lens: reads the whole tree; its setter copies the child's
      value and children into the parent. */
  function RootNodeLens<K(==), V>(): Lens<StateNode<K, V>, StateNode<K, V>>
  {
    Lens(t => t, (c: StateNode<K, V>) => (p: StateNode<K, V>) => p.(value := c.value, children := c.children))
  }

  /** The `value` lens of a node: reads `value`, writes `value` and keeps `children`. */
  function NodeValueLens<K(==), V>(): Lens<StateNode<K, V>, V>
  {
    Lens((t: StateNode<K, V>) => t.value, (v: V) => (t: StateNode<K, V>) => t.(value := v))
  }

  /** The child lens of `DefaultNode`: reads `children[key]`, or a fresh leaf
      holding `init` when the key is absent; writes `children + (key to child)`. */
  function ChildLens<K(==), V>(key: K, init: V): Lens<StateNode<K, V>, StateNode<K, V>>
  {
    Lens((t: StateNode<K, V>) => ChildOrLeaf(t, Step(key, init)),
         (c: StateNode<K, V>) => (p: StateNode<K, V>) => p.(children := p.children[key := c]))
  }

  function ChildOrLeaf<K(==), V>(t: StateNode<K, V>, step: Step<K, V>): StateNode<K, V>
  {
    if step.key in t.children then t.children[step.key] else Leaf(step.init)
  }

  /** `Node.node`: the root node lens, or `parent.node + childLens`. */
  function NodeLens<K(==), V>(n: Node<K, V>): Lens<StateNode<K, V>, StateNode<K, V>>
  {
    match n
    case Root => RootNodeLens()
    case Child(p, k, i) => Plus(NodeLens(p), ChildLens(k, i))
  }

  /** `Node.value`: the root value lens, or `node + valueLens`. */
  function ValueLens<K(==), V>(n: Node<K, V>): Lens<StateNode<K, V>, V>
  {
    match n
    case Root => NodeValueLens()
    case Child(_, _, _) => Plus(NodeLens(n), NodeValueLens())
  }

  // A reference definition of reading and writing at a key path.

  /** The node at `path`, every missing child read as a fresh leaf. */
  function Lookup<K(==), V>(t: StateNode<K, V>, path: seq<Step<K, V>>): StateNode<K, V>
    decreases |path|
  {
    if path == [] then t else Lookup(ChildOrLeaf(t, path[0]), path[1..])
  }

  /** `t` with the node at `path` replaced by `c`, every node on the way
      created from its initializer when missing. */
  function Update<K(==), V>(t: StateNode<K, V>, path: seq<Step<K, V>>, c: StateNode<K, V>): StateNode<K, V>
    decreases |path|
  {
    if path == [] then c
    else t.(children := t.children[path[0].key := Update(ChildOrLeaf(t, path[0]), path[1..], c)])
  }

  lemma RootNodeLensIsWholeTree<K, V>(t: StateNode<K, V>, c: StateNode<K, V>)
    ensures Get(RootNodeLens(), t) == t
    ensures Set(RootNodeLens(), t, c) == c
  {
  }

  lemma NodeValueLensKeepsChildren<K, V>(t: StateNode<K, V>, v: V)
    ensures Get(NodeValueLens(), t) == t.value
    ensures Set(NodeValueLens(), t, v).value == v
    ensures Set(NodeValueLens(), t, v).children == t.children
  {
  }

  /** A missing child reads as a fresh leaf; reading is a pure function of the
      tree, so the tree is never changed by it. */
  lemma ChildLensGet<K, V>(t: StateNode<K, V>, key: K, init: V)
    ensures key in t.children ==> Get(ChildLens(key, init), t) == t.children[key]
    ensures key !in t.children ==> Get(ChildLens(key, init), t) == Leaf(init)
  {
  }

  /** The child setter overwrites `key` only. */
  lemma ChildLensSetOnlyKey<K, V>(t: StateNode<K, V>, key: K, init: V, c: StateNode<K, V>)
    ensures Set(ChildLens(key, init), t, c).value == t.value
    ensures Set(ChildLens(key, init), t, c).children.Keys == t.children.Keys + {key}
    ensures forall k :: k in t.children && k != key ==> Set(ChildLens(key, init), t, c).children[k] == t.children[k]
    ensures Get(ChildLens(key, init), Set(ChildLens(key, init), t, c)) == c
  {
  }

  /** Writing back what the child lens read leaves the tree as it was exactly
      when the child already existed: a default leaf that is written back is
      inserted. */
  lemma ChildLensSetGetIff<K, V>(t: StateNode<K, V>, key: K, init: V)
    ensures Set(ChildLens(key, init), t, Get(ChildLens(key, init), t)) == t <==> key in t.children
  {
    if key !in t.children {
      assert key in Set(ChildLens(key, init), t, Get(ChildLens(key, init), t)).children;
    }
  }

  lemma ChildLensLaws<K(!new), V(!new)>(key: K, init: V)
    ensures GetSetLaw(ChildLens(key, init)) && SetSetLaw(ChildLens(key, init))
  {
  }

  lemma {:induction false} LookupAppend<K, V>(t: StateNode<K, V>, path: seq<Step<K, V>>, step: Step<K, V>)
    ensures Lookup(t, path + [step]) == ChildOrLeaf(Lookup(t, path), step)
    decreases |path|
  {
    if path == [] {
      assert [step][1..] == [];
    } else {
      assert (path + [step])[1..] == path[1..] + [step];
      LookupAppend(ChildOrLeaf(t, path[0]), path[1..], step);
    }
  }

  lemma {:induction false} UpdateAppend<K, V>(t: StateNode<K, V>, path: seq<Step<K, V>>, step: Step<K, V>, c: StateNode<K, V>)
    ensures Update(t, path + [step], c) == Update(t, path, Set(ChildLens(step.key, step.init), Lookup(t, path), c))
    decreases |path|
  {
    if path == [] {
      assert [step][1..] == [];
    } else {
      assert (path + [step])[1..] == path[1..] + [step];
      UpdateAppend(ChildOrLeaf(t, path[0]), path[1..], step, c);
    }
  }

  /** Reading through the lens of a node reads the node at its key path. */
  lemma {:induction false} NodeLensGetIsLookup<K, V>(n: Node<K, V>, t: StateNode<K, V>)
    ensures Get(NodeLens(n), t) == Lookup(t, Path(n))
  {
    match n
    case Root =>
    case Child(p, k, i) =>
      NodeLensGetIsLookup(p, t);
      LookupAppend(t, Path(p), Step(k, i));
      calc {
        Get(NodeLens(n), t);
        Get(Plus(NodeLens(p), ChildLens(k, i)), t);
        { PlusGetSet(NodeLens(p), ChildLens(k, i), t, Leaf(i)); }
        Get(ChildLens(k, i), Get(NodeLens(p), t));
        ChildOrLeaf(Lookup(t, Path(p)), Step(k, i));
        Lookup(t, Path(p) + [Step(k, i)]);
      }
  }

  /** Writing through the lens of a node replaces the node at its key path. */
  lemma {:induction false} NodeLensSetIsUpdate<K, V>(n: Node<K, V>, t: StateNode<K, V>, c: StateNode<K, V>)
    ensures Set(NodeLens(n), t, c) == Update(t, Path(n), c)
  {
    match n
    case Root =>
    case Child(p, k, i) =>
      var child := ChildLens(k, i);
      NodeLensGetIsLookup(p, t);
      NodeLensSetIsUpdate(p, t, Set(child, Get(NodeLens(p), t), c));
      UpdateAppend(t, Path(p), Step(k, i), c);
  }

  /** The node lens of any `Node` satisfies get-after-set. */
  lemma {:induction false} NodeLensGetSet<K(!new), V(!new)>(n: Node<K, V>)
    ensures GetSetLaw(NodeLens(n))
  {
    match n
    case Root =>
    case Child(p, k, i) =>
      NodeLensGetSet(p);
      ChildLensLaws(k, i);
      PlusKeepsGetSetLaw(NodeLens(p), ChildLens(k, i));
  }

  /** Reading a value through `withChild` chains reads the value at the key path. */
  lemma {:induction false} ValueLensGet<K, V>(n: Node<K, V>, t: StateNode<K, V>)
    ensures Get(ValueLens(n), t) == Lookup(t, Path(n)).value
  {
    NodeLensGetIsLookup(n, t);
    if n.Child? {
      PlusGetSet(NodeLens(n), NodeValueLens(), t, t.value);
    }
  }

  /** Writing a value through `withChild` chains writes the node at the key
      path with its value replaced and its children kept. */
  lemma {:induction false} ValueLensSetIsUpdate<K, V>(n: Node<K, V>, t: StateNode<K, V>, v: V)
    ensures Set(ValueLens(n), t, v) == Update(t, Path(n), Lookup(t, Path(n)).(value := v))
  {
    var target := Lookup(t, Path(n)).(value := v);
    if n.Root? {
      assert Path(n) == [];
    } else {
      NodeValueAtPath(n, t, v);
      ValueLensSetViaNodeLens(n, t, v);
      NodeLensSetIsUpdate(n, t, target);
    }
  }

  lemma {:induction false} ValueLensSetViaNodeLens<K, V>(n: Node<K, V>, t: StateNode<K, V>, v: V)
    requires n.Child?
    ensures Set(ValueLens(n), t, v) == Set(NodeLens(n), t, Get(NodeLens(n), t).(value := v))
  {
    var nl := NodeLens(n);
    var vl: Lens<StateNode<K, V>, V> := NodeValueLens();
    assert ValueLens(n) == Plus(nl, vl);
    PlusGetSet(nl, vl, t, v);
  }

  lemma {:induction false} NodeValueAtPath<K, V>(n: Node<K, V>, t: StateNode<K, V>, v: V)
    ensures Get(NodeLens(n), t).(value := v) == Lookup(t, Path(n)).(value := v)
  {
    NodeLensGetIsLookup(n, t);
  }

  /** Setting a descendant's value through its `value` lens replaces the value
      at the key path, keeps that node's children, and leaves the root value
      and every sibling subtree of the first key unchanged. */
  lemma {:induction false} ValueLensSetIsLocal<K, V>(n: Node<K, V>, t: StateNode<K, V>, v: V)
    requires n.Child?
    ensures var r := Set(ValueLens(n), t, v);
            && Lookup(r, Path(n)) == Lookup(t, Path(n)).(value := v)
            && r.value == t.value
            && r.children.Keys == t.children.Keys + {Path(n)[0].key}
            && forall k :: k != Path(n)[0].key && k in t.children ==> r.children[k] == t.children[k]
  {
    var path := Path(n);
    var target := Lookup(t, path).(value := v);
    ValueLensSetIsUpdate(n, t, v);
    LookupOfUpdate(t, path, target);
    PathOfChildIsNonEmpty(n);
    UpdateIsLocal(t, path, target);
  }

  /** Replacing a node below the root keeps the root value and every child
      other than the first key's. */
  lemma UpdateIsLocal<K, V>(t: StateNode<K, V>, path: seq<Step<K, V>>, c: StateNode<K, V>)
    requires |path| > 0
    ensures Update(t, path, c).value == t.value
    ensures Update(t, path, c).children.Keys == t.children.Keys + {path[0].key}
    ensures forall k :: k != path[0].key && k in t.children ==>
              Update(t, path, c).children[k] == t.children[k]
  {
  }

  lemma {:induction false} PathOfChildIsNonEmpty<K, V>(n: Node<K, V>)
    requires n.Child?
    ensures |Path(n)| > 0
  {
  }

  lemma {:induction false} LookupOfUpdate<K, V>(t: StateNode<K, V>, path: seq<Step<K, V>>, c: StateNode<K, V>)
    ensures Lookup(Update(t, path, c), path) == c
    decreases |path|
  {
    if path != [] {
      LookupOfUpdate(ChildOrLeaf(t, path[0]), path[1..], c);
    }
  }
}
