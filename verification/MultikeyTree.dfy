/** The tree of sources/multikey_tree/multikey_tree.h used by one thread at a time: heap nodes with an
    array of children each, proved to be a map from paths to values. */
module MultikeyTree {
  import opened Common
  import opened MultikeyPaths

  datatype ReadResult<N> = Found(node: N) | IllegalSymbol | NoSuchKey

  /** `node_data_` starts as `init`; a pointer to it is represented by the node itself. */
  class Node<V> {
    const init: V
    const children: array<Node?<V>>
    var nodeData: V

    constructor (init: V)
      ensures this.init == init && nodeData == init
      ensures fresh(children) && children.Length == WIDTH
      ensures forall i :: 0 <= i < WIDTH ==> children[i] == null
    {
      this.init := init;
      nodeData := init;
      children := new Node?<V>[WIDTH](_ => null);
    }
  }

  /** The node of every path that exists. */
  type Nodes<V> = map<Path, Node<V>>

  ghost function Arrays<V>(at: Nodes<V>): set<array<Node?<V>>> {
    set p | p in at :: at[p].children
  }

  /** The node of p hangs below the node of p's parent path, in the slot of p's last character. */
  ghost predicate Linked<V>(at: Nodes<V>, p: Path)
    reads Arrays(at)
  {
    p in at && at[p].children.Length == WIDTH &&
    (p != [] ==>
       && Legal(p[|p| - 1])
       && p[..|p| - 1] in at
       && at[p[..|p| - 1]].children.Length == WIDTH
       && at[p[..|p| - 1]].children[Hash(p[|p| - 1]).value] == at[p])
  }

  /** Every occupied slot of p's node holds the node of p extended by the slot's character. */
  ghost predicate Slots<V>(at: Nodes<V>, p: Path)
    reads Arrays(at)
  {
    p in at && at[p].children.Length == WIDTH &&
    forall i :: 0 <= i < WIDTH && at[p].children[i] != null ==>
      p + [CharAt(i)] in at && at[p].children[i] == at[p + [CharAt(i)]]
  }

  /** `at` describes the whole tree below `root`: one node and one child array per path. */
  ghost predicate Shape<V>(root: Node<V>, at: Nodes<V>)
    reads Arrays(at)
  {
    && [] in at && at[[]] == root
    && (forall p {:trigger Linked(at, p)} :: p in at ==> Linked(at, p))
    && (forall p {:trigger Slots(at, p)} :: p in at ==> Slots(at, p))
    && (forall p, q {:trigger at[p], at[q]} :: p in at && q in at && p != q ==>
          at[p] != at[q] && at[p].children != at[q].children)
    && (forall p {:trigger at[p]} :: p in at ==> at[p].init == root.init)
  }

  /** The tree as a map from paths to values. */
  ghost function Values<V>(at: Nodes<V>): map<Path, V>
    reads at.Values
  {
    map p | p in at :: at[p].nodeData
  }

  /** An existing child is in its parent's slot. */
  lemma ChildInSlot<V>(root: Node<V>, at: Nodes<V>, prefix: Path, i: nat)
    requires Shape(root, at) && prefix in at && i < WIDTH && at[prefix].children.Length == WIDTH
    ensures var path := prefix + [CharAt(i)];
      path in at ==> at[prefix].children[i] == at[path]
  {
    var path := prefix + [CharAt(i)];
    HashBijective(CharAt(i), i);
    if path in at {
      assert Linked(at, path);
      assert path[..|path| - 1] == prefix;
    }
  }

  // ----- the specification: a map from paths to values -----

  /** What `get_for_edit` does to the map: the visited paths that are missing get the default value. */
  function Extended<V>(m: map<Path, V>, paths: set<Path>, init: V): map<Path, V> {
    m + map p | p in paths - m.Keys :: init
  }

  /** The tree after a descent that may have added nodes. */
  twostate predicate Grown<V>(root: Node<V>, at: Nodes<V>, new at': Nodes<V>, paths: set<Path>)
    reads Arrays(at'), at'.Values
  {
    && Shape(root, at')
    && at'.Keys == at.Keys + paths
    && (forall p {:trigger at'[p]} :: p in at ==> at'[p] == at[p])
    && (forall p {:trigger at'[p]} :: p in at' && p !in at ==>
          fresh(at'[p]) && fresh(at'[p].children) && at'[p].nodeData == root.init)
  }

  // ----- the methods -----

  method AddChild<V>(ghost root: Node<V>, node: Node<V>, ghost at: Nodes<V>, ghost prefix: Path, i: nat)
    returns (child: Node<V>, ghost at': Nodes<V>)
    requires Shape(root, at) && prefix in at && at[prefix] == node
    requires i < WIDTH && node.children.Length == WIDTH && node.children[i] == null
    modifies node.children
    ensures fresh(child) && fresh(child.children) && child.nodeData == root.init
    ensures prefix + [CharAt(i)] !in at && at' == at[prefix + [CharAt(i)] := child]
    ensures node.children[i] == child
    ensures Shape(root, at')
  {
    ghost var path := prefix + [CharAt(i)];
    ChildInSlot(root, at, prefix, i);
    HashBijective(CharAt(i), i);
    child := new Node<V>(node.init);
    node.children[i] := child;
    at' := at[path := child];
    assert path[..|path| - 1] == prefix;
    forall p | p in at' ensures Linked(at', p) {
      if p != path {
        assert old(Linked(at, p));
      }
    }
    forall p | p in at' ensures Slots(at', p) {
      if p != path {
        assert old(Slots(at, p));
      }
    }
  }

  /** The locked block of `get_for_edit`: the child in slot i, created if it is missing. */
  method ChildForEdit<V>(node: Node<V>, i: nat, ghost root: Node<V>, ghost at: Nodes<V>, ghost prefix: Path)
    returns (child: Node<V>, ghost at': Nodes<V>)
    requires Shape(root, at) && prefix in at && at[prefix] == node
    requires i < WIDTH
    modifies node.children
    ensures Grown(root, at, at', {prefix + [CharAt(i)]})
    ensures child == at'[prefix + [CharAt(i)]]
  {
    assert Linked(at, prefix) && Slots(at, prefix);
    at' := at;
    if node.children[i] == null {
      child, at' := AddChild(root, node, at, prefix, i);
    } else {
      child := node.children[i];
    }
  }

  /** `get_for_edit` on the node of path `prefix`: creates what is missing along `suffix` and returns
      the node of the whole key, or throws at the first illegal character. */
  method GetForEditFrom<V>(node: Node<V>, suffix: string, ghost root: Node<V>, ghost at: Nodes<V>, ghost prefix: Path)
    returns (result: Option<Node<V>>, ghost at': Nodes<V>)
    requires Shape(root, at) && prefix in at && at[prefix] == node
    modifies Arrays(at)
    ensures Grown(root, at, at', Visited(prefix, suffix))
    ensures result.Some? <==> LegalLength(suffix) == |suffix|
    ensures result.Some? ==> prefix + suffix in at' && result.value == at'[prefix + suffix]
    decreases |suffix|
  {
    hide Linked, Slots, Shape;
    if suffix == "" {
      assert prefix + suffix == prefix;
      return Some(node), at;
    }
    var index := Hash(suffix[0]);
    if index == None {
      return None, at;
    }
    HashBijective(suffix[0], index.value);
    ghost var below := prefix + [suffix[0]];
    var child;
    ghost var mid;
    child, mid := ChildForEdit(node, index.value, root, at, prefix);
    result, at' := GetForEditFrom(child, suffix[1..], root, mid, below);
    assert prefix + suffix == below + suffix[1..];
  }

  /** `get_for_edit`: afterwards the tree maps exactly the legal prefixes of the key in addition, each
      new one to the default value, and no other value has changed. */
  method GetForEdit<V>(root: Node<V>, key: string, ghost at: Nodes<V>)
    returns (result: Option<Node<V>>, ghost at': Nodes<V>)
    requires Shape(root, at)
    modifies Arrays(at)
    ensures Shape(root, at') && forall p {:trigger at'[p]} :: p in at ==> p in at' && at'[p] == at[p]
    ensures at'.Keys == at.Keys + Visited([], key)
    ensures Values(at') == Extended(old(Values(at)), Visited([], key), root.init)
    ensures forall p {:trigger at'[p]} :: p in at' && p !in at ==> fresh(at'[p]) && fresh(at'[p].children)
    ensures result.Some? <==> InRange(key)
    ensures result.Some? ==> key in at' && result.value == at'[key]
  {
    LegalLengthRange(key);
    hide Linked, Slots, Visited, LegalLength;
    result, at' := GetForEditFrom(root, key, root, at, []);
    assert [] + key == key;
    assert Values(at').Keys == at.Keys + Visited([], key);
  }

  /** A client editing one key after the other: exactly the legal prefixes of the keys are added. */
  method EditAll<V>(root: Node<V>, keys: seq<string>, ghost at: Nodes<V>) returns (ghost at': Nodes<V>)
    requires Shape(root, at)
    modifies Arrays(at)
    ensures Shape(root, at')
    ensures forall p :: p in at' <==> p in at || exists k :: k in keys && p in Visited([], k)
  {
    hide Linked, Slots, Shape, Visited, Values, LegalLength;
    at' := at;
    for i := 0 to |keys|
      invariant Shape(root, at')
      invariant forall p {:trigger at'[p]} :: p in at ==> p in at' && at'[p] == at[p]
      invariant forall p {:trigger at'[p]} :: p in at' && p !in at ==> fresh(at'[p].children)
      invariant forall p :: p in at' <==> p in at || exists k :: k in keys[..i] && p in Visited([], k)
    {
      var node;
      ghost var before := at';
      node, at' := GetForEdit(root, keys[i], before);
      assert keys[..i + 1] == keys[..i] + [keys[i]];
    }
    assert keys[..|keys|] == keys;
  }

  /** `get_for_read` on the node of path `prefix`. */
  method GetForReadFrom<V>(node: Node<V>, suffix: string, ghost root: Node<V>, ghost at: Nodes<V>, ghost prefix: Path)
    returns (result: ReadResult<Node<V>>)
    requires Shape(root, at) && prefix in at && at[prefix] == node
    ensures result.Found? <==> prefix + suffix in at
    ensures result.Found? ==> result.node == at[prefix + suffix]
    ensures result.IllegalSymbol? <==>
              LegalLength(suffix) < |suffix| && prefix + suffix[..LegalLength(suffix)] in at
    decreases |suffix|
  {
    if suffix == "" {
      assert prefix + suffix == prefix;
      return Found(node);
    }
    var index := Hash(suffix[0]);
    if index == None {
      NoPathThrough(root, at, prefix, suffix);
      assert prefix + suffix[..0] == prefix;
      return IllegalSymbol;
    }
    HashBijective(suffix[0], index.value);
    assert Linked(at, prefix) && Slots(at, prefix);
    ghost var below := prefix + [suffix[0]];
    assert prefix + suffix == below + suffix[1..];
    var n := LegalLength(suffix[1..]);
    assert prefix + suffix[..n + 1] == below + suffix[1..][..n];
    if node.children[index.value] == null {
      ChildInSlot(root, at, prefix, index.value);
      PathsAbove(root, at, below, suffix[1..]);
      PathsAbove(root, at, below, suffix[1..][..n]);
      return NoSuchKey;
    }
    result := GetForReadFrom(node.children[index.value], suffix[1..], root, at, below);
  }

  /** A path that exists has all its prefixes. */
  lemma {:induction false} PathsAbove<V>(root: Node<V>, at: Nodes<V>, prefix: Path, suffix: Path)
    requires Shape(root, at)
    ensures prefix + suffix in at ==> prefix in at
    decreases |suffix|
  {
    if suffix == [] {
      assert prefix + suffix == prefix;
    } else if prefix + suffix in at {
      var p := prefix + suffix;
      assert Linked(at, p);
      assert p[..|p| - 1] == prefix + suffix[..|suffix| - 1];
      PathsAbove(root, at, prefix, suffix[..|suffix| - 1]);
    }
  }

  /** No path contains an illegal character. */
  lemma PathsLegal<V>(root: Node<V>, at: Nodes<V>, p: Path, i: nat)
    requires Shape(root, at) && p in at && i < |p|
    ensures Legal(p[i])
  {
    var above := p[..i + 1];
    assert above + p[i + 1..] == p;
    PathsAbove(root, at, above, p[i + 1..]);
    assert Linked(at, above);
  }

  lemma NoPathThrough<V>(root: Node<V>, at: Nodes<V>, prefix: Path, suffix: Path)
    requires Shape(root, at) && suffix != [] && !Legal(suffix[0])
    ensures prefix + suffix !in at
  {
    if prefix + suffix in at {
      PathsLegal(root, at, prefix + suffix, |prefix|);
    }
  }

  lemma FirstOutside(key: string)
    ensures forall n :: 0 <= n < |key| && !('/' <= key[n] <= 'z') && InRange(key[..n]) <==>
              n == LegalLength(key) < |key|
  {
    hide LegalLength;
    LegalLengthRange(key);
    forall n | 0 <= n < |key| && !('/' <= key[n] <= 'z') && InRange(key[..n]) ensures n == LegalLength(key) {
      OutsideIsFirst(key, n);
    }
  }

  lemma OutsideIsFirst(key: string, n: nat)
    requires n < |key| && !('/' <= key[n] <= 'z') && InRange(key[..n])
    ensures n == LegalLength(key)
  {
    hide LegalLength;
    var m := LegalLength(key);
    LegalLengthRange(key);
    assert forall i :: 0 <= i < n ==> key[..n][i] == key[i];
    assert forall i :: 0 <= i < m ==> key[..m][i] == key[i];
  }

  /** `get_for_read`: succeeds exactly on the keys that exist, and returns their node; it complains of the symbol
      exactly if the path up to the first character outside the range from '/' to 'z' exists. */
  method GetForRead<V>(root: Node<V>, key: string, ghost at: Nodes<V>) returns (result: ReadResult<Node<V>>)
    requires Shape(root, at)
    ensures result.Found? <==> key in at
    ensures result.Found? ==> result.node == at[key]
    ensures result.IllegalSymbol? <==>
              exists n :: 0 <= n < |key| && !('/' <= key[n] <= 'z') && InRange(key[..n]) && key[..n] in at
  {
    result := GetForReadFrom(root, key, root, at, []);
    FirstOutside(key);
    assert [] + key == key && [] + key[..LegalLength(key)] == key[..LegalLength(key)];
  }

  /** `clear`: everything but the root's own value is gone. */
  method Clear<V>(root: Node<V>, ghost at: Nodes<V>) returns (ghost at': Nodes<V>)
    requires Shape(root, at)
    modifies root.children
    ensures Shape(root, at') && Values(at') == map[[] := old(root.nodeData)]
  {
    assert Linked(at, []);
    for i := 0 to WIDTH
      invariant forall j :: 0 <= j < i ==> root.children[j] == null
    {
      if root.children[i] != null {
        root.children[i] := null;
      }
    }
    at' := map[[] := root];
    assert Linked(at', []) && Slots(at', []);
  }

  /** Distinct keys never share a node, so writing through one leaves the values of all others. */
  method Assign<V>(root: Node<V>, key: string, value: V, ghost at: Nodes<V>)
    returns (stored: bool, ghost at': Nodes<V>)
    requires Shape(root, at)
    modifies Arrays(at), at.Values
    ensures stored <==> InRange(key)
    ensures Shape(root, at')
    ensures var edited := Extended(old(Values(at)), Visited([], key), root.init);
      Values(at') == if stored then edited[key := value] else edited
  {
    var node;
    node, at' := GetForEdit(root, key, at);
    if node.Some? {
      StoreAt(root, at', key, node.value, value);
    }
    stored := node.Some?;
  }

  method StoreAt<V>(ghost root: Node<V>, ghost at: Nodes<V>, ghost key: string, node: Node<V>, value: V)
    requires Shape(root, at) && key in at && at[key] == node
    modifies node
    ensures Shape(root, at) && Values(at) == old(Values(at))[key := value]
  {
    hide Hash, CharAt, Legal;
    node.nodeData := value;
    forall p | p in at ensures Linked(at, p) && Slots(at, p) {
      assert old(Linked(at, p) && Slots(at, p));
    }
  }
}
