/** Many threads calling `get_for_edit` on one tree at the same time (and nobody calling `clear`).
    A descent takes, per character: the hash; the block under the node's mutex that creates the child
    if it is missing; and the read of the child pointer after the mutex has been released. */
module MultikeyConcurrent {
  import opened Common
  import opened MultikeyPaths

  type Tid = nat
  type NodeId = nat

  /** `pos` characters of the thread's key have been consumed. */
  datatype Pc =
    | Entered(node: NodeId, pos: nat)
    | Locking(node: NodeId, pos: nat, index: nat)
    | Reading(node: NodeId, pos: nat, index: nat)
    | Returned(node: NodeId)
    | Threw(pos: nat)
    | Crashed

  /** The child pointer of a node at an index. */
  datatype Slot = Slot(node: NodeId, index: nat)

  /** `slots` holds the non-null child pointers; `path` is history: the path each node was created for. */
  datatype State = State(
    slots: map<Slot, NodeId>,
    path: seq<Path>,
    pc: map<Tid, Pc>)

  function Init(threads: set<Tid>): State {
    State(map[], [[]], map t | t in threads :: Entered(0, 0))
  }

  /** The key thread t asks for. */
  type Keys = Tid -> Path

  predicate Enabled(keys: Keys, s: State, t: Tid) {
    t in s.pc && match s.pc[t]
      case Entered(n, pos) => pos <= |keys(t)|
      case Locking(n, pos, i) => n < |s.path| && i < WIDTH
      case Reading(_, _, _) => true
      case _ => false
  }

  function Step(keys: Keys, s: State, t: Tid): State
    requires Enabled(keys, s, t)
  {
    match s.pc[t]
    case Entered(n, pos) =>
      var p :=
        if pos == |keys(t)| then Returned(n)
        else match Hash(keys(t)[pos])
          case None => Threw(pos)
          case Some(i) => Locking(n, pos, i);
      s.(pc := s.pc[t := p])
    case Locking(n, pos, i) =>
      if Slot(n, i) in s.slots then s.(pc := s.pc[t := Reading(n, pos, i)])
      else s.(slots := s.slots[Slot(n, i) := |s.path|],
              path := s.path + [s.path[n] + [CharAt(i)]],
              pc := s.pc[t := Reading(n, pos, i)])
    case Reading(n, pos, i) =>
      s.(pc := s.pc[t := if Slot(n, i) in s.slots then Entered(s.slots[Slot(n, i)], pos + 1) else Crashed])
  }

  ghost predicate Feasible(keys: Keys, s: State, run: seq<Tid>)
    decreases |run|
  {
    run == [] || (Enabled(keys, s, run[0]) && Feasible(keys, Step(keys, s, run[0]), run[1..]))
  }

  ghost function After(keys: Keys, s: State, run: seq<Tid>): State
    requires Feasible(keys, s, run)
    decreases |run|
  {
    if run == [] then s else After(keys, Step(keys, s, run[0]), run[1..])
  }

  // ----- what every step keeps -----

  /** A slot leads from a node to the node of the path extended by the slot's character. */
  ghost predicate SlotsSound(s: State) {
    forall e :: e in s.slots ==>
      && e.node < |s.path| && e.index < WIDTH && s.slots[e] < |s.path|
      && s.path[s.slots[e]] == s.path[e.node] + [CharAt(e.index)]
  }

  ghost predicate HasParent(s: State, m: NodeId) {
    m < |s.path| && s.path[m] != [] && exists e :: e in s.slots && s.slots[e] == m
  }

  /** Every node but the root is in the slot it was created for. */
  ghost predicate Attached(s: State) {
    && |s.path| > 0 && s.path[0] == []
    && forall m {:trigger HasParent(s, m)} :: 0 < m < |s.path| ==> HasParent(s, m)
  }

  /** One node per path. */
  ghost predicate OneNodePerPath(s: State) {
    forall m, n :: 0 <= m < n < |s.path| ==> s.path[m] != s.path[n]
  }

  /** A descent is at the node of the part of its key it has consumed, and its child is there to be
      read after the mutex block. */
  ghost predicate OnTrack(keys: Keys, s: State, t: Tid)
    requires t in s.pc
  {
    var key := keys(t);
    match s.pc[t]
    case Entered(n, pos) => pos <= |key| && pos <= LegalLength(key) && n < |s.path| && s.path[n] == key[..pos]
    case Locking(n, pos, i) =>
      pos < |key| && pos < LegalLength(key) && n < |s.path| && s.path[n] == key[..pos] && Hash(key[pos]) == Some(i)
    case Reading(n, pos, i) =>
      && pos < |key| && pos < LegalLength(key) && n < |s.path| && s.path[n] == key[..pos] && Hash(key[pos]) == Some(i)
      && Slot(n, i) in s.slots
    case Returned(n) => n < |s.path| && s.path[n] == key && LegalLength(key) == |key|
    case Threw(pos) => pos == LegalLength(key) < |key| && exists n :: 0 <= n < |s.path| && s.path[n] == key[..pos]
    case Crashed => false
  }

  ghost predicate Invariant(keys: Keys, s: State) {
    && SlotsSound(s)
    && Attached(s)
    && OneNodePerPath(s)
    && forall t :: t in s.pc ==> OnTrack(keys, s, t)
  }

  /** Slots are only ever filled, and nodes only added. */
  ghost predicate Grows(s: State, s': State) {
    && s.slots.Keys <= s'.slots.Keys
    && (forall e :: e in s.slots ==> s'.slots[e] == s.slots[e])
    && |s.path| <= |s'.path|
    && (forall m :: 0 <= m < |s.path| ==> s'.path[m] == s.path[m])
    && s'.pc.Keys == s.pc.Keys
  }

  lemma StepGrows(keys: Keys, s: State, t: Tid)
    requires Enabled(keys, s, t)
    ensures Grows(s, Step(keys, s, t))
  {
  }

  /** Only an empty slot gets a node, so no path gets a second one. */
  lemma NewPathIsNew(s: State, n: NodeId, i: nat)
    requires SlotsSound(s) && Attached(s) && OneNodePerPath(s)
    requires n < |s.path| && i < WIDTH && Slot(n, i) !in s.slots
    ensures forall m :: 0 <= m < |s.path| ==> s.path[m] != s.path[n] + [CharAt(i)]
  {
    var p := s.path[n] + [CharAt(i)];
    forall m | 0 < m < |s.path| ensures s.path[m] != p {
      assert HasParent(s, m);
      var e :| e in s.slots && s.slots[e] == m;
      ExtensionsDiffer(s.path[e.node], e.index, s.path[n], i);
      if s.path[e.node] == s.path[n] {
        assert e.node == n;
      }
    }
  }

  /** Extending different paths, or with different characters, gives different paths. */
  lemma ExtensionsDiffer(p: Path, i: nat, q: Path, j: nat)
    requires i < WIDTH && j < WIDTH
    ensures p + [CharAt(i)] == q + [CharAt(j)] <==> p == q && i == j
  {
    HashBijective(CharAt(i), i);
    HashBijective(CharAt(j), j);
    var a, b := p + [CharAt(i)], q + [CharAt(j)];
    if a == b {
      assert a[..|a| - 1] == p && b[..|b| - 1] == q;
      assert a[|a| - 1] == CharAt(i) && b[|b| - 1] == CharAt(j);
    }
  }

  /** The state with a new node in an empty slot. */
  function WithChild(s: State, n: NodeId, i: nat): State
    requires n < |s.path| && i < WIDTH
  {
    s.(slots := s.slots[Slot(n, i) := |s.path|], path := s.path + [s.path[n] + [CharAt(i)]])
  }

  lemma NewChildAttached(s: State, n: NodeId, i: nat)
    requires Attached(s) && n < |s.path| && i < WIDTH && Slot(n, i) !in s.slots
    ensures Attached(WithChild(s, n, i))
  {
    var s' := WithChild(s, n, i);
    forall m | 0 < m < |s'.path| ensures HasParent(s', m) {
      if m < |s.path| {
        assert HasParent(s, m);
        var e :| e in s.slots && s.slots[e] == m;
        assert e in s'.slots && s'.slots[e] == m;
      } else {
        assert Slot(n, i) in s'.slots && s'.slots[Slot(n, i)] == m;
      }
    }
  }

  lemma NewChildKeepsTree(s: State, n: NodeId, i: nat)
    requires SlotsSound(s) && Attached(s) && OneNodePerPath(s)
    requires n < |s.path| && i < WIDTH && Slot(n, i) !in s.slots
    ensures SlotsSound(WithChild(s, n, i)) && Attached(WithChild(s, n, i)) && OneNodePerPath(WithChild(s, n, i))
  {
    NewPathIsNew(s, n, i);
    NewChildAttached(s, n, i);
  }

  /** A step leaves the tree alone or puts a new node into an empty slot. */
  lemma StepAddsChild(keys: Keys, s: State, t: Tid)
    requires Enabled(keys, s, t)
    ensures var s' := Step(keys, s, t);
      || (s'.slots == s.slots && s'.path == s.path)
      || (var n, i := s.pc[t].node, s.pc[t].index;
          && s.pc[t].Locking? && Slot(n, i) !in s.slots
          && s'.slots == WithChild(s, n, i).slots && s'.path == WithChild(s, n, i).path)
  {
  }

  lemma SameTree(s: State, s': State)
    requires SlotsSound(s) && Attached(s) && OneNodePerPath(s) && s'.slots == s.slots && s'.path == s.path
    ensures SlotsSound(s') && Attached(s') && OneNodePerPath(s')
  {
    forall m | 0 < m < |s'.path| ensures HasParent(s', m) {
      assert HasParent(s, m);
    }
  }

  lemma StepKeepsTree(keys: Keys, s: State, t: Tid)
    requires SlotsSound(s) && Attached(s) && OneNodePerPath(s) && Enabled(keys, s, t)
    ensures SlotsSound(Step(keys, s, t)) && Attached(Step(keys, s, t)) && OneNodePerPath(Step(keys, s, t))
  {
    StepAddsChild(keys, s, t);
    if s.pc[t].Locking? && Slot(s.pc[t].node, s.pc[t].index) !in s.slots {
      NewChildKeepsTree(s, s.pc[t].node, s.pc[t].index);
      SameTree(WithChild(s, s.pc[t].node, s.pc[t].index), Step(keys, s, t));
    } else {
      SameTree(s, Step(keys, s, t));
    }
  }

  /** Where a thread is stays right when the tree grows. */
  lemma OnTrackGrows(keys: Keys, s: State, s': State, t: Tid)
    requires t in s.pc && t in s'.pc && s'.pc[t] == s.pc[t] && Grows(s, s') && OnTrack(keys, s, t)
    ensures OnTrack(keys, s', t)
  {
    if s.pc[t].Threw? {
      var n :| 0 <= n < |s.path| && s.path[n] == keys(t)[..s.pc[t].pos];
      assert s'.path[n] == keys(t)[..s.pc[t].pos];
    }
  }

  /** A key that is legal up to a position is legal there exactly if the prefix goes on. */
  lemma {:induction false} LegalAt(key: Path, pos: nat)
    requires pos <= LegalLength(key)
    ensures pos < |key| && Legal(key[pos]) <==> pos < LegalLength(key)
  {
  }

  lemma EnteredKeepsTrack(keys: Keys, s: State, t: Tid)
    requires t in s.pc && s.pc[t].Entered? && OnTrack(keys, s, t) && Enabled(keys, s, t)
    ensures OnTrack(keys, Step(keys, s, t), t)
  {
    LegalAt(keys(t), s.pc[t].pos);
    if s.pc[t].pos == |keys(t)| {
      assert keys(t)[..s.pc[t].pos] == keys(t);
    }
  }

  lemma ReadingKeepsTrack(keys: Keys, s: State, t: Tid)
    requires t in s.pc && s.pc[t].Reading? && OnTrack(keys, s, t) && SlotsSound(s)
    ensures OnTrack(keys, Step(keys, s, t), t)
  {
    var key, pos := keys(t), s.pc[t].pos;
    HashBijective(key[pos], s.pc[t].index);
    assert key[..pos + 1] == key[..pos] + [key[pos]];
  }

  lemma StepKeepsTrack(keys: Keys, s: State, t: Tid)
    requires Invariant(keys, s) && Enabled(keys, s, t)
    ensures OnTrack(keys, Step(keys, s, t), t)
  {
    assert OnTrack(keys, s, t);
    match s.pc[t]
    case Entered(_, _) => EnteredKeepsTrack(keys, s, t);
    case Locking(_, _, _) =>
    case Reading(_, _, _) => ReadingKeepsTrack(keys, s, t);
  }

  lemma StepKeepsInvariant(keys: Keys, s: State, t: Tid)
    requires Invariant(keys, s) && Enabled(keys, s, t)
    ensures Invariant(keys, Step(keys, s, t))
  {
    StepKeepsTree(keys, s, t);
    StepGrows(keys, s, t);
    var s' := Step(keys, s, t);
    forall u | u in s'.pc ensures OnTrack(keys, s', u) {
      if u == t {
        StepKeepsTrack(keys, s, t);
      } else {
        OnTrackGrows(keys, s, s', u);
      }
    }
  }

  // ----- every run, whatever the schedule -----

  lemma {:induction false} RunKeepsInvariant(keys: Keys, s: State, run: seq<Tid>)
    requires Invariant(keys, s) && Feasible(keys, s, run)
    ensures Invariant(keys, After(keys, s, run)) && Grows(s, After(keys, s, run))
    decreases |run|
  {
    if run == [] {
    } else {
      StepKeepsInvariant(keys, s, run[0]);
      StepGrows(keys, s, run[0]);
      RunKeepsInvariant(keys, Step(keys, s, run[0]), run[1..]);
    }
  }

  ghost predicate Reached(keys: Keys, s: State, threads: set<Tid>, run: seq<Tid>) {
    Feasible(keys, Init(threads), run) && s == After(keys, Init(threads), run)
  }

  lemma ReachedHolds(keys: Keys, s: State, threads: set<Tid>, run: seq<Tid>)
    requires Reached(keys, s, threads, run)
    ensures Invariant(keys, s)
  {
    RunKeepsInvariant(keys, Init(threads), run);
  }

  /** A child pointer once set never changes, and the read after the mutex block always sees one. */
  lemma SlotsStable(keys: Keys, s: State, run: seq<Tid>)
    requires Invariant(keys, s) && Feasible(keys, s, run)
    ensures forall e :: e in s.slots ==> e in After(keys, s, run).slots && After(keys, s, run).slots[e] == s.slots[e]
    ensures forall t :: t in After(keys, s, run).pc ==> !After(keys, s, run).pc[t].Crashed?
  {
    RunKeepsInvariant(keys, s, run);
    forall t | t in After(keys, s, run).pc ensures !After(keys, s, run).pc[t].Crashed? {
      assert OnTrack(keys, After(keys, s, run), t);
    }
  }

  /** A descent returns the node of its key exactly if all characters are in the range from '/' to 'z'; otherwise it
      throws at the first that is not, the nodes of all prefixes before it being there. */
  lemma DescentAnswers(keys: Keys, s: State, threads: set<Tid>, run: seq<Tid>, t: Tid)
    requires Reached(keys, s, threads, run) && t in s.pc
    ensures s.pc[t].Returned? ==>
              InRange(keys(t)) && s.pc[t].node < |s.path| && s.path[s.pc[t].node] == keys(t)
    ensures s.pc[t].Threw? ==>
              var pos := s.pc[t].pos;
              && pos < |keys(t)| && !('/' <= keys(t)[pos] <= 'z') && InRange(keys(t)[..pos])
              && exists n :: 0 <= n < |s.path| && s.path[n] == keys(t)[..pos]
  {
    ReachedHolds(keys, s, threads, run);
    LegalLengthRange(keys(t));
    assert OnTrack(keys, s, t);
  }

  /** Descents for the same key return the same node, for different keys different nodes. */
  lemma SameKeySameNode(keys: Keys, s: State, threads: set<Tid>, run: seq<Tid>, t: Tid, u: Tid)
    requires Reached(keys, s, threads, run)
    requires t in s.pc && u in s.pc && s.pc[t].Returned? && s.pc[u].Returned?
    ensures s.pc[t].node == s.pc[u].node <==> keys(t) == keys(u)
  {
    ReachedHolds(keys, s, threads, run);
    assert OnTrack(keys, s, t) && OnTrack(keys, s, u);
  }

  // ----- which nodes there are in the end -----

  /** The paths that have a node. */
  ghost predicate Exists(s: State, p: Path) {
    exists m :: 0 <= m < |s.path| && s.path[m] == p
  }

  /** Every node's path is a legal prefix of some thread's key. */
  ghost predicate Wanted(keys: Keys, s: State) {
    forall m :: 0 <= m < |s.path| ==> s.path[m] == [] || exists t :: t in s.pc && s.path[m] in Visited([], keys(t))
  }

  /** The path of a node created by a descent is a legal prefix of its key. */
  lemma CreatedIsWanted(key: Path, pos: nat, i: nat)
    requires pos < LegalLength(key) && Hash(key[pos]) == Some(i)
    ensures key[..pos] + [CharAt(i)] in Visited([], key)
  {
    HashBijective(key[pos], i);
    var p := key[..pos] + [CharAt(i)];
    assert p == [] + key[..pos + 1];
    VisitedMeaning([], key, p);
  }

  lemma StepKeepsWanted(keys: Keys, s: State, t: Tid)
    requires Wanted(keys, s) && Invariant(keys, s) && Enabled(keys, s, t)
    ensures Wanted(keys, Step(keys, s, t))
  {
    var s' := Step(keys, s, t);
    StepAddsChild(keys, s, t);
    assert OnTrack(keys, s, t);
    if s.pc[t].Locking? {
      CreatedIsWanted(keys(t), s.pc[t].pos, s.pc[t].index);
    }
    forall m | 0 <= m < |s'.path| && s'.path[m] != []
      ensures exists u :: u in s'.pc && s'.path[m] in Visited([], keys(u))
    {
      if m < |s.path| {
        assert s'.path[m] == s.path[m];
        var u :| u in s.pc && s.path[m] in Visited([], keys(u));
        assert u in s'.pc;
      } else {
        assert t in s'.pc;
      }
    }
  }

  lemma {:induction false} RunKeepsWanted(keys: Keys, s: State, run: seq<Tid>)
    requires Wanted(keys, s) && Invariant(keys, s) && Feasible(keys, s, run)
    ensures Wanted(keys, After(keys, s, run)) && After(keys, s, run).pc.Keys == s.pc.Keys
    decreases |run|
  {
    if run == [] {
    } else {
      StepKeepsWanted(keys, s, run[0]);
      StepKeepsInvariant(keys, s, run[0]);
      RunKeepsWanted(keys, Step(keys, s, run[0]), run[1..]);
    }
  }

  lemma ParentExists(s: State, p: Path)
    requires SlotsSound(s) && Attached(s) && Exists(s, p) && p != []
    ensures Exists(s, p[..|p| - 1])
  {
    var m :| 0 <= m < |s.path| && s.path[m] == p;
    assert HasParent(s, m);
    var e :| e in s.slots && s.slots[e] == m;
    assert s.path[e.node] == p[..|p| - 1];
  }

  /** With a node all its ancestors are there. */
  lemma {:induction false} AncestorsExist(s: State, p: Path, k: nat)
    requires SlotsSound(s) && Attached(s) && Exists(s, p) && k <= |p|
    ensures Exists(s, p[..k])
    decreases |p|
  {
    if k == |p| {
      assert p[..k] == p;
    } else {
      ParentExists(s, p);
      AncestorsExist(s, p[..|p| - 1], k);
      assert p[..|p| - 1][..k] == p[..k];
    }
  }

  /** When all descents are over, the nodes are exactly the root and the legal prefixes of the
      requested keys: the same set for every schedule. */
  lemma FinalNodes(keys: Keys, s: State, threads: set<Tid>, run: seq<Tid>, p: Path)
    requires Reached(keys, s, threads, run)
    requires forall t :: t in s.pc ==> s.pc[t].Returned? || s.pc[t].Threw?
    ensures Exists(s, p) <==> InClosure(set t | t in threads :: keys(t), p)
  {
    ReachedHolds(keys, s, threads, run);
    RunKeepsWanted(keys, Init(threads), run);
    if Exists(s, p) {
      ExistingIsWanted(keys, s, threads, p);
    }
    if p == [] {
      assert s.path[0] == p;
    } else if InClosure(set t | t in threads :: keys(t), p) {
      var t :| t in threads && p in Visited([], keys(t));
      WantedExists(keys, s, t, p);
    }
  }

  lemma ExistingIsWanted(keys: Keys, s: State, threads: set<Tid>, p: Path)
    requires Wanted(keys, s) && Exists(s, p) && s.pc.Keys == threads
    ensures InClosure(set t | t in threads :: keys(t), p)
  {
    var m :| 0 <= m < |s.path| && s.path[m] == p;
    if p != [] {
      var t :| t in s.pc && s.path[m] in Visited([], keys(t));
      assert keys(t) in (set t | t in threads :: keys(t));
    }
  }

  lemma LegalPartExists(keys: Keys, s: State, t: Tid)
    requires t in s.pc && (s.pc[t].Returned? || s.pc[t].Threw?) && OnTrack(keys, s, t)
    ensures Exists(s, keys(t)[..LegalLength(keys(t))])
  {
    if s.pc[t].Returned? {
      assert keys(t)[..LegalLength(keys(t))] == keys(t);
    }
  }

  /** A finished descent has left all legal prefixes of its key behind. */
  lemma WantedExists(keys: Keys, s: State, t: Tid, p: Path)
    requires Invariant(keys, s) && t in s.pc && (s.pc[t].Returned? || s.pc[t].Threw?)
    requires p in Visited([], keys(t))
    ensures Exists(s, p)
  {
    assert OnTrack(keys, s, t);
    var key := keys(t);
    VisitedMeaning([], key, p);
    var n :| 1 <= n <= LegalLength(key) && p == [] + key[..n];
    var legal := key[..LegalLength(key)];
    LegalPartExists(keys, s, t);
    AncestorsExist(s, legal, n);
    assert legal[..n] == p;
  }
}
