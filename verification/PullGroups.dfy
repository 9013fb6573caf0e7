/**
 Splitting the planned work of one pull window into groups that may be applied independently. Two
 plans belong together when they touch the same entry or the same path; the split is a union-find
 over an array of parent indices with path compression.
 */
module PullGroups {
  import opened Common

  type Key = string

  /** The parts of a planned entry state that name an entry or a path. */
  datatype Plan = Plan(
    entryId: string, adopted: Option<(string, Option<string>)>, owner: Option<(string, Option<string>)>,
    finalPath: Option<string>, existingPath: Option<string>, metadataPath: string,
    vaultMove: Option<(string, string)>)

  datatype Superseded = Superseded(entryId: string, metadataPath: string, existingPath: Option<string>)

  datatype Group = Group(plans: seq<Plan>, superseded: seq<Superseded>)

  datatype Node = PlanNode(plan: Plan) | ItemNode(item: Superseded)

  /** filter(Boolean): absent and empty strings name nothing. */
  function Tagged(tag: string, names: seq<Option<string>>): seq<Key> {
    if names == [] then []
    else (if names[0].Some? && names[0].value != [] then [tag + names[0].value] else []) + Tagged(tag, names[1..])
  }

  function PathOf(entry: Option<(string, Option<string>)>): Option<string> {
    if entry.Some? then entry.value.1 else None
  }

  function IdOf(entry: Option<(string, Option<string>)>): Option<string> {
    if entry.Some? then Some(entry.value.0) else None
  }

  function Keys(node: Node): seq<Key> {
    match node
    case PlanNode(p) =>
      Tagged("entry:", [Some(p.entryId), IdOf(p.adopted), IdOf(p.owner)])
      + Tagged("path:", [p.finalPath, p.existingPath, Some(p.metadataPath),
          if p.vaultMove.Some? then Some(p.vaultMove.value.0) else None,
          if p.vaultMove.Some? then Some(p.vaultMove.value.1) else None,
          PathOf(p.adopted), PathOf(p.owner)])
    case ItemNode(s) =>
      ["entry:" + s.entryId] + Tagged("path:", [Some(s.metadataPath), s.existingPath])
  }

  function Nodes(plans: seq<Plan>, superseded: seq<Superseded>): seq<Node> {
    seq(|plans|, k requires 0 <= k < |plans| => PlanNode(plans[k]))
    + seq(|superseded|, k requires 0 <= k < |superseded| => ItemNode(superseded[k]))
  }

  // ---------------------------------------------------------------- connectivity

  ghost predicate ShareKey(nodes: seq<Node>, i: nat, j: nat)
    requires i < |nodes| && j < |nodes|
  {
    exists key :: key in Keys(nodes[i]) && key in Keys(nodes[j])
  }

  /** A chain of nodes in which every two neighbours share a key. */
  ghost predicate Chain(nodes: seq<Node>, chain: seq<nat>, i: nat, j: nat) {
    && chain != [] && chain[0] == i && chain[|chain| - 1] == j
    && (forall k | 0 <= k < |chain| :: chain[k] < |nodes|)
    && (forall k | 0 <= k < |chain| - 1 :: ShareKey(nodes, chain[k], chain[k + 1]))
  }

  ghost predicate Connected(nodes: seq<Node>, i: nat, j: nat) {
    exists chain :: Chain(nodes, chain, i, j)
  }

  lemma ConnectedReflexive(nodes: seq<Node>, i: nat)
    requires i < |nodes|
    ensures Connected(nodes, i, i)
  {
    assert Chain(nodes, [i], i, i);
  }

  lemma ConnectedTransitive(nodes: seq<Node>, i: nat, j: nat, k: nat)
    requires Connected(nodes, i, j) && Connected(nodes, j, k)
    ensures Connected(nodes, i, k)
  {
    var c :| Chain(nodes, c, i, j);
    var d :| Chain(nodes, d, j, k);
    var e := c + d[1..];
    assert Chain(nodes, e, i, k) by {
      assert e[|e| - 1] == if |d| == 1 then c[|c| - 1] else d[|d| - 1];
      forall x | 0 <= x < |e| - 1 ensures e[x] < |nodes| && ShareKey(nodes, e[x], e[x + 1]) {
        if x >= |c| - 1 {
          assert e[x] == d[x - (|c| - 1)] && e[x + 1] == d[x + 1 - (|c| - 1)];
        }
      }
    }
  }

  lemma ConnectedSymmetric(nodes: seq<Node>, i: nat, j: nat)
    requires Connected(nodes, i, j)
    ensures Connected(nodes, j, i)
  {
    var c :| Chain(nodes, c, i, j);
    var d := seq(|c|, k requires 0 <= k < |c| => c[|c| - 1 - k]);
    forall x | 0 <= x < |d| - 1 ensures ShareKey(nodes, d[x], d[x + 1]) {
      assert ShareKey(nodes, c[|c| - 2 - x], c[|c| - 1 - x]);
    }
    assert Chain(nodes, d, j, i);
  }

  lemma SharingConnects(nodes: seq<Node>, i: nat, j: nat, key: Key)
    requires i < |nodes| && j < |nodes| && key in Keys(nodes[i]) && key in Keys(nodes[j])
    ensures Connected(nodes, i, j)
  {
    assert ShareKey(nodes, i, j);
    assert Chain(nodes, [i, j], i, j);
  }

  // ---------------------------------------------------------------- the forest

  /** Node `i` hangs in a tree with root rep[i]; ranks grow towards the root, so every walk up ends. */
  ghost predicate Hangs(parent: seq<nat>, rep: seq<nat>, rank: seq<nat>, i: nat)
    requires |parent| == |rep| == |rank| && i < |parent|
  {
    && parent[i] < |parent| && rep[i] < |parent|
    && rep[parent[i]] == rep[i] && parent[rep[i]] == rep[i]
    && (if parent[i] == i then rep[i] == i else rank[i] < rank[parent[i]])
    && rank[i] <= rank[rep[i]]
  }

  ghost predicate Forest(parent: seq<nat>, rep: seq<nat>, rank: seq<nat>) {
    && |parent| == |rep| == |rank|
    && forall i {:trigger Hangs(parent, rep, rank, i)} | 0 <= i < |parent| :: Hangs(parent, rep, rank, i)
  }

  lemma CompressKeepsForest(parent: seq<nat>, rep: seq<nat>, rank: seq<nat>, index: nat)
    requires Forest(parent, rep, rank) && index < |parent| && parent[index] != index
    ensures rep[index] < |parent| && Forest(parent[index := rep[index]], rep, rank)
  {
    assert Hangs(parent, rep, rank, index);
    var root := rep[index];
    assert Hangs(parent, rep, rank, root) && Hangs(parent, rep, rank, parent[index]);
    var parent' := parent[index := root];
    forall i | 0 <= i < |parent| ensures Hangs(parent', rep, rank, i) {
      assert Hangs(parent, rep, rank, i);
    }
  }

  /** Finds the root of a node and hangs every node on the way directly below it. */
  method Root(parent: array<nat>, index: nat, ghost rep: seq<nat>, ghost rank: seq<nat>) returns (root: nat)
    requires Forest(parent[..], rep, rank)
    requires index < parent.Length && Hangs(parent[..], rep, rank, index)
    modifies parent
    ensures Forest(parent[..], rep, rank)
    ensures root == rep[index] < parent.Length && rep[root] == root
    decreases rank[rep[index]] - rank[index]
  {
    assert Hangs(parent[..], rep, rank, parent[index]);
    if parent[index] != index {
      var above := Root(parent, parent[index], rep, rank);
      ghost var before := parent[..];
      assert Hangs(before, rep, rank, index);
      if parent[index] != index {
        CompressKeepsForest(before, rep, rank, index);
      }
      parent[index] := above;
      assert parent[..] == before[index := above];
    }
    assert Hangs(parent[..], rep, rank, index);
    return parent[index];
  }

  /** Two trees joined: the root of `from` now hangs below the root of `to`. */
  function Joined(rep: seq<nat>, from: nat, to: nat): seq<nat> {
    seq(|rep|, k requires 0 <= k < |rep| => if rep[k] == from then to else rep[k])
  }

  lemma JoinForest(parent: seq<nat>, rep: seq<nat>, rank: seq<nat>, from: nat, to: nat) returns (rank': seq<nat>)
    requires Forest(parent, rep, rank)
    requires from < |parent| && to < |parent| && rep[from] == from && rep[to] == to
    ensures Forest(parent[from := to], Joined(rep, from, to), rank')
  {
    assert Hangs(parent, rep, rank, from) && Hangs(parent, rep, rank, to);
    rank' := if from == to then rank else rank[to := rank[to] + rank[from] + 1];
    var parent', rep' := parent[from := to], Joined(rep, from, to);
    forall i | 0 <= i < |parent| ensures Hangs(parent', rep', rank', i) {
      assert Hangs(parent, rep, rank, i);
      assert Hangs(parent, rep, rank, parent[i]);
    }
  }

  // ---------------------------------------------------------------- building the components

  /** Nodes in one tree are connected in the sharing graph. */
  ghost predicate Sound(nodes: seq<Node>, rep: seq<nat>) {
    |rep| == |nodes| && forall i, j | 0 <= i < |nodes| && 0 <= j < |nodes| && rep[i] == rep[j] :: Connected(nodes, i, j)
  }

  /** `key` of node `index` has been seen: it has an owner, in the same tree. */
  ghost predicate Seen(nodes: seq<Node>, rep: seq<nat>, owners: map<Key, nat>, index: nat, key: Key)
    requires |rep| == |nodes| && index < |nodes|
  {
    key in owners && owners[key] < |nodes| && rep[index] == rep[owners[key]]
  }

  ghost predicate OwnersHold(nodes: seq<Node>, owners: map<Key, nat>) {
    forall key | key in owners :: owners[key] < |nodes| && key in Keys(nodes[owners[key]])
  }

  /** All keys of the first `index` nodes and the first `k` keys of node `index` have been seen. */
  ghost predicate SeenUpTo(nodes: seq<Node>, rep: seq<nat>, owners: map<Key, nat>, index: nat, k: nat)
    requires |rep| == |nodes|
  {
    && (forall i, key | 0 <= i < index && i < |nodes| && key in Keys(nodes[i]) :: Seen(nodes, rep, owners, i, key))
    && (index < |nodes| ==> forall x | 0 <= x < k && x < |Keys(nodes[index])| ::
          Seen(nodes, rep, owners, index, Keys(nodes[index])[x]))
  }

  lemma JoinKeepsSound(nodes: seq<Node>, rep: seq<nat>, a: nat, b: nat)
    requires Sound(nodes, rep) && a < |nodes| && b < |nodes| && Connected(nodes, a, b)
    ensures Sound(nodes, Joined(rep, rep[a], rep[b]))
  {
    var rep' := Joined(rep, rep[a], rep[b]);
    forall i, j | 0 <= i < |nodes| && 0 <= j < |nodes| && rep'[i] == rep'[j] ensures Connected(nodes, i, j) {
      if rep[i] != rep[j] {
        ConnectedSymmetric(nodes, a, b);
        if rep[i] == rep[a] {
          ConnectedTransitive(nodes, i, a, b);
          ConnectedTransitive(nodes, i, b, j);
        } else {
          ConnectedTransitive(nodes, i, b, a);
          ConnectedTransitive(nodes, i, a, j);
        }
      }
    }
  }

  lemma JoinKeepsSeen(nodes: seq<Node>, rep: seq<nat>, owners: map<Key, nat>, index: nat, k: nat, from: nat, to: nat)
    requires |rep| == |nodes| && SeenUpTo(nodes, rep, owners, index, k)
    ensures SeenUpTo(nodes, Joined(rep, from, to), owners, index, k)
  {
    var rep' := Joined(rep, from, to);
    forall i, key | 0 <= i < index && i < |nodes| && key in Keys(nodes[i]) ensures Seen(nodes, rep', owners, i, key) {
      assert Seen(nodes, rep, owners, i, key);
    }
    if index < |nodes| {
      forall x | 0 <= x < k && x < |Keys(nodes[index])|
        ensures Seen(nodes, rep', owners, index, Keys(nodes[index])[x])
      {
        assert Seen(nodes, rep, owners, index, Keys(nodes[index])[x]);
      }
    }
  }

  ghost predicate Building(nodes: seq<Node>, parent: seq<nat>, rep: seq<nat>, rank: seq<nat>, owners: map<Key, nat>,
      index: nat, k: nat)
  {
    && |parent| == |nodes| && Forest(parent, rep, rank)
    && Sound(nodes, rep) && OwnersHold(nodes, owners)
    && SeenUpTo(nodes, rep, owners, index, k)
  }

  lemma BuildingStarts(nodes: seq<Node>, parent: seq<nat>, rank: seq<nat>)
    requires |parent| == |rank| == |nodes| && forall i | 0 <= i < |parent| :: parent[i] == i
    ensures Building(nodes, parent, parent, rank, map[], 0, 0)
  {
    forall i | 0 <= i < |nodes| ensures Connected(nodes, i, i) { ConnectedReflexive(nodes, i); }
  }

  lemma BuildingFacts(nodes: seq<Node>, parent: seq<nat>, rep: seq<nat>, rank: seq<nat>, owners: map<Key, nat>,
      index: nat, k: nat, key: Key)
    requires Building(nodes, parent, rep, rank, owners, index, k)
    ensures |parent| == |nodes| && Forest(parent, rep, rank)
    ensures index < |nodes| ==> Hangs(parent, rep, rank, index)
    ensures key in owners ==> owners[key] < |nodes| && Hangs(parent, rep, rank, owners[key])
  {
    if index < |nodes| { assert Hangs(parent, rep, rank, index); }
    if key in owners { assert Hangs(parent, rep, rank, owners[key]); }
  }

  /** The key already has an owner: join the two trees. */
  lemma BuildingJoins(nodes: seq<Node>, before: seq<nat>, parent: seq<nat>, rep: seq<nat>, rank: seq<nat>,
      owners: map<Key, nat>, index: nat, k: nat) returns (rank': seq<nat>)
    requires Building(nodes, before, rep, rank, owners, index, k)
    requires |parent| == |nodes| && Forest(parent, rep, rank)
    requires index < |nodes| && k < |Keys(nodes[index])| && Keys(nodes[index])[k] in owners
    requires owners[Keys(nodes[index])[k]] < |nodes|
    ensures var a, b := rep[index], rep[owners[Keys(nodes[index])[k]]];
      a < |nodes| && Building(nodes, parent[a := b], Joined(rep, a, b), rank', owners, index, k + 1)
  {
    var key := Keys(nodes[index])[k];
    var owner := owners[key];
    var a, b := rep[index], rep[owner];
    assert Hangs(parent, rep, rank, index) && Hangs(parent, rep, rank, owner);
    assert Hangs(parent, rep, rank, a) && Hangs(parent, rep, rank, b);
    SharingConnects(nodes, index, owner, key);
    JoinKeepsSound(nodes, rep, index, owner);
    JoinKeepsSeen(nodes, rep, owners, index, k, a, b);
    rank' := JoinForest(parent, rep, rank, a, b);
  }

  /** The key is new: the node owns it. */
  lemma BuildingOwns(nodes: seq<Node>, parent: seq<nat>, rep: seq<nat>, rank: seq<nat>, owners: map<Key, nat>,
      index: nat, k: nat)
    requires Building(nodes, parent, rep, rank, owners, index, k)
    requires index < |nodes| && k < |Keys(nodes[index])| && Keys(nodes[index])[k] !in owners
    ensures Building(nodes, parent, rep, rank, owners[Keys(nodes[index])[k] := index], index, k + 1)
  {
    var owners' := owners[Keys(nodes[index])[k] := index];
    forall i, key | 0 <= i < index && key in Keys(nodes[i]) ensures Seen(nodes, rep, owners', i, key) {
      assert Seen(nodes, rep, owners, i, key);
    }
    forall x | 0 <= x < k ensures Seen(nodes, rep, owners', index, Keys(nodes[index])[x]) {
      assert Seen(nodes, rep, owners, index, Keys(nodes[index])[x]);
    }
  }

  lemma BuildingNext(nodes: seq<Node>, parent: seq<nat>, rep: seq<nat>, rank: seq<nat>, owners: map<Key, nat>, index: nat)
    requires index < |nodes| && Building(nodes, parent, rep, rank, owners, index, |Keys(nodes[index])|)
    ensures Building(nodes, parent, rep, rank, owners, index + 1, 0)
  {
    forall i, key | 0 <= i < index + 1 && key in Keys(nodes[i]) ensures Seen(nodes, rep, owners, i, key) {
      if i == index {
        var x :| 0 <= x < |Keys(nodes[index])| && Keys(nodes[index])[x] == key;
      }
    }
  }

  /** Joins every node with the first node that carries one of its keys. */
  method BuildForest(nodes: seq<Node>) returns (parent: array<nat>, ghost rep: seq<nat>, ghost rank: seq<nat>)
    ensures fresh(parent) && parent.Length == |nodes|
    ensures Forest(parent[..], rep, rank)
    ensures forall i, j | 0 <= i < |nodes| && 0 <= j < |nodes| :: rep[i] == rep[j] <==> Connected(nodes, i, j)
  {
    hide Building, Forest, Hangs;
    parent := new nat[|nodes|](i => i);
    rep := parent[..];
    rank := seq(|nodes|, i => 0);
    var owners: map<Key, nat> := map[];
    BuildingStarts(nodes, parent[..], rank);
    for index := 0 to |nodes|
      invariant Building(nodes, parent[..], rep, rank, owners, index, 0)
    {
      var keys := Keys(nodes[index]);
      for k := 0 to |keys|
        invariant Building(nodes, parent[..], rep, rank, owners, index, k)
      {
        BuildingFacts(nodes, parent[..], rep, rank, owners, index, k, keys[k]);
        if keys[k] in owners {
          var owner := owners[keys[k]];
          ghost var start := parent[..];
          var a := Root(parent, index, rep, rank);
          ForestFacts(parent[..], rep, rank, owner);
          var b := Root(parent, owner, rep, rank);
          ghost var before := parent[..];
          ghost var rank' := BuildingJoins(nodes, start, before, rep, rank, owners, index, k);
          parent[a] := b;
          assert parent[..] == before[a := b];
          rep, rank := Joined(rep, a, b), rank';
        } else {
          BuildingOwns(nodes, parent[..], rep, rank, owners, index, k);
          owners := owners[keys[k] := index];
        }
      }
      BuildingNext(nodes, parent[..], rep, rank, owners, index);
    }
    BuildingEnds(nodes, parent[..], rep, rank, owners);
  }

  lemma ForestFacts(parent: seq<nat>, rep: seq<nat>, rank: seq<nat>, i: nat)
    requires Forest(parent, rep, rank) && i < |parent|
    ensures |parent| == |rep| == |rank| && Hangs(parent, rep, rank, i)
  {
  }

  lemma BuildingEnds(nodes: seq<Node>, parent: seq<nat>, rep: seq<nat>, rank: seq<nat>, owners: map<Key, nat>)
    requires Building(nodes, parent, rep, rank, owners, |nodes|, 0)
    ensures Forest(parent, rep, rank) && |rep| == |nodes|
    ensures forall i, j | 0 <= i < |nodes| && 0 <= j < |nodes| :: rep[i] == rep[j] <==> Connected(nodes, i, j)
  {
    Complete(nodes, rep, owners);
  }

  lemma Complete(nodes: seq<Node>, rep: seq<nat>, owners: map<Key, nat>)
    requires |rep| == |nodes| && SeenUpTo(nodes, rep, owners, |nodes|, 0) && Sound(nodes, rep)
    ensures forall i, j | 0 <= i < |nodes| && 0 <= j < |nodes| :: rep[i] == rep[j] <==> Connected(nodes, i, j)
  {
    forall i, j | 0 <= i < |nodes| && 0 <= j < |nodes| && Connected(nodes, i, j) ensures rep[i] == rep[j] {
      var chain :| Chain(nodes, chain, i, j);
      ChainStaysInTree(nodes, rep, owners, chain, i, j);
    }
  }

  lemma ChainStaysInTree(nodes: seq<Node>, rep: seq<nat>, owners: map<Key, nat>, chain: seq<nat>, i: nat, j: nat)
    requires |rep| == |nodes| && SeenUpTo(nodes, rep, owners, |nodes|, 0) && Chain(nodes, chain, i, j)
    ensures rep[i] == rep[j]
  {
    if |chain| > 1 {
      assert ShareKey(nodes, chain[0], chain[1]);
      var key :| key in Keys(nodes[chain[0]]) && key in Keys(nodes[chain[1]]);
      assert Seen(nodes, rep, owners, chain[0], key) && Seen(nodes, rep, owners, chain[1], key);
      ChainStaysInTree(nodes, rep, owners, chain[1..], chain[1], j);
    }
  }

  // ---------------------------------------------------------------- collecting the groups

  ghost predicate Increasing(s: seq<nat>) { forall a, b | 0 <= a < b < |s| :: s[a] < s[b] }

  ghost predicate Listed(members: seq<seq<nat>>, i: nat) {
    exists g :: 0 <= g < |members| && i in members[g]
  }

  /** The index lists of the connected components of the first `n` nodes: components in the order of
      their first node, nodes of a component in input order. */
  ghost predicate Components(nodes: seq<Node>, n: nat, members: seq<seq<nat>>) {
    && n <= |nodes|
    && (forall g | 0 <= g < |members| :: members[g] != [] && Increasing(members[g]))
    && (forall g, h | 0 <= g < h < |members| :: members[g][0] < members[h][0])
    && (forall i: nat | i < n :: Listed(members, i))
    && (forall g, i | 0 <= g < |members| && i in members[g] :: i < n)
    && (forall g, i, j | 0 <= g < |members| && i in members[g] && j in members[g] :: Connected(nodes, i, j))
    && (forall g, h, i, j | 0 <= g < |members| && 0 <= h < |members| && i in members[g] && j in members[h]
          && Connected(nodes, i, j) :: g == h)
  }

  /** One component as a group: its plans and its superseded items, each in input order. */
  function Collect(nodes: seq<Node>, indices: seq<nat>): Group
    requires forall k | 0 <= k < |indices| :: indices[k] < |nodes|
  {
    if indices == [] then Group([], [])
    else
      var last := |indices| - 1;
      Add(Collect(nodes, indices[..last]), nodes[indices[last]])
  }

  function Add(group: Group, node: Node): Group {
    match node
    case PlanNode(plan) => group.(plans := group.plans + [plan])
    case ItemNode(item) => group.(superseded := group.superseded + [item])
  }

  /** The groups are the connected components of the sharing graph, and nothing else. */
  ghost predicate IsGrouping(nodes: seq<Node>, members: seq<seq<nat>>, groups: seq<Group>) {
    && Components(nodes, |nodes|, members)
    && |groups| == |members|
    && (forall g | 0 <= g < |groups| ::
          && (forall k | 0 <= k < |members[g]| :: members[g][k] < |nodes|)
          && groups[g] == Collect(nodes, members[g]))
  }

  /** The state of the collecting loop after `n` nodes: slot `g` gathers the nodes with root roots[g]. */
  ghost predicate Collecting(nodes: seq<Node>, rep: seq<nat>, n: nat, slots: map<nat, nat>, roots: seq<nat>,
      members: seq<seq<nat>>, groups: seq<Group>)
  {
    && n <= |nodes| == |rep|
    && |roots| == |members| == |groups|
    && (forall g | 0 <= g < |roots| :: roots[g] in slots && slots[roots[g]] == g)
    && (forall r | r in slots :: slots[r] < |roots| && roots[slots[r]] == r)
    && (forall g | 0 <= g < |members| :: SlotHolds(nodes, rep, n, roots[g], members[g], groups[g]))
    && (forall g, h | 0 <= g < h < |members| :: members[g] != [] && members[h] != [] && members[g][0] < members[h][0])
    && (forall i | 0 <= i < n :: rep[i] in slots && i in members[slots[rep[i]]])
  }

  ghost predicate SlotHolds(nodes: seq<Node>, rep: seq<nat>, n: nat, root: nat, indices: seq<nat>, group: Group)
    requires n <= |nodes| == |rep|
  {
    && indices != [] && Increasing(indices)
    && (forall k | 0 <= k < |indices| :: indices[k] < n && rep[indices[k]] == root)
    && group == Collect(nodes, indices)
  }

  function AddTo(groups: seq<Group>, slot: nat, node: Node): seq<Group>
    requires slot <= |groups|
  {
    if slot == |groups| then groups + [Add(Group([], []), node)] else groups[slot := Add(groups[slot], node)]
  }

  ghost function AddIndex(members: seq<seq<nat>>, slot: nat, index: nat): seq<seq<nat>>
    requires slot <= |members|
  {
    if slot == |members| then members + [[index]] else members[slot := members[slot] + [index]]
  }

  lemma SlotGrows(nodes: seq<Node>, rep: seq<nat>, n: nat, root: nat, indices: seq<nat>, group: Group)
    requires n < |nodes| == |rep| && SlotHolds(nodes, rep, n, root, indices, group) && rep[n] == root
    ensures SlotHolds(nodes, rep, n + 1, root, indices + [n], Add(group, nodes[n]))
  {
    assert (indices + [n])[..|indices|] == indices;
  }

  lemma CollectOne(nodes: seq<Node>, rep: seq<nat>, n: nat)
    requires n < |nodes| == |rep|
    ensures SlotHolds(nodes, rep, n + 1, rep[n], [n], Add(Group([], []), nodes[n]))
  {
    assert [n][..0] == [];
  }

  /** The node opens a slot of its own. */
  lemma CollectingOpens(nodes: seq<Node>, rep: seq<nat>, n: nat, slots: map<nat, nat>, roots: seq<nat>,
      members: seq<seq<nat>>, groups: seq<Group>)
    requires Collecting(nodes, rep, n, slots, roots, members, groups) && n < |nodes| && rep[n] !in slots
    ensures Collecting(nodes, rep, n + 1, slots[rep[n] := |groups|], roots + [rep[n]],
              members + [[n]], groups + [Add(Group([], []), nodes[n])])
  {
    var roots', members', groups' := roots + [rep[n]], members + [[n]], groups + [Add(Group([], []), nodes[n])];
    forall g | 0 <= g < |members'| ensures SlotHolds(nodes, rep, n + 1, roots'[g], members'[g], groups'[g]) {
      if g < |members| {
        assert SlotHolds(nodes, rep, n, roots[g], members[g], groups[g]);
      } else {
        CollectOne(nodes, rep, n);
      }
    }
    forall g, h | 0 <= g < h < |members'|
      ensures members'[g] != [] && members'[h] != [] && members'[g][0] < members'[h][0]
    {
      assert SlotHolds(nodes, rep, n, roots[g], members[g], groups[g]);
    }
  }

  /** The node joins the slot of its root. */
  lemma CollectingAdds(nodes: seq<Node>, rep: seq<nat>, n: nat, slots: map<nat, nat>, roots: seq<nat>,
      members: seq<seq<nat>>, groups: seq<Group>)
    requires Collecting(nodes, rep, n, slots, roots, members, groups) && n < |nodes| && rep[n] in slots
    ensures var slot := slots[rep[n]];
      && slot < |members| == |groups|
      && Collecting(nodes, rep, n + 1, slots, roots,
           members[slot := members[slot] + [n]], groups[slot := Add(groups[slot], nodes[n])])
  {
    var slot := slots[rep[n]];
    var members', groups' := members[slot := members[slot] + [n]], groups[slot := Add(groups[slot], nodes[n])];
    forall g | 0 <= g < |members'| ensures SlotHolds(nodes, rep, n + 1, roots[g], members'[g], groups'[g]) {
      assert SlotHolds(nodes, rep, n, roots[g], members[g], groups[g]);
      if g == slot { SlotGrows(nodes, rep, n, roots[g], members[g], groups[g]); }
    }
    forall g, h | 0 <= g < h < |members'|
      ensures members'[g] != [] && members'[h] != [] && members'[g][0] < members'[h][0]
    {
      assert members[g] != [] && members[h] != [];
    }
    forall i | 0 <= i < n + 1 ensures rep[i] in slots && i in members'[slots[rep[i]]] {
      if i == n {
        assert members'[slot][|members[slot]|] == n;
      }
    }
  }

  lemma CollectingStep(nodes: seq<Node>, rep: seq<nat>, n: nat, slots: map<nat, nat>, roots: seq<nat>,
      members: seq<seq<nat>>, groups: seq<Group>)
    requires Collecting(nodes, rep, n, slots, roots, members, groups) && n < |nodes|
    ensures n < |rep| && |members| == |groups|
    ensures var isNew := rep[n] !in slots;
      var slot := if isNew then |groups| else slots[rep[n]];
      && slot <= |groups|
      && Collecting(nodes, rep, n + 1, slots[rep[n] := slot], if isNew then roots + [rep[n]] else roots,
           AddIndex(members, slot, n), AddTo(groups, slot, nodes[n]))
  {
    CollectingSizes(nodes, rep, n, slots, roots, members, groups);
    hide Collecting;
    if rep[n] in slots {
      CollectingAdds(nodes, rep, n, slots, roots, members, groups);
      assert slots[rep[n] := slots[rep[n]]] == slots;
    } else {
      CollectingOpens(nodes, rep, n, slots, roots, members, groups);
    }
  }

  lemma CollectingSizes(nodes: seq<Node>, rep: seq<nat>, n: nat, slots: map<nat, nat>, roots: seq<nat>,
      members: seq<seq<nat>>, groups: seq<Group>)
    requires Collecting(nodes, rep, n, slots, roots, members, groups)
    ensures |rep| == |nodes| && |members| == |groups|
  {
  }

  lemma CollectingEnds(nodes: seq<Node>, rep: seq<nat>, slots: map<nat, nat>, roots: seq<nat>,
      members: seq<seq<nat>>, groups: seq<Group>)
    requires Collecting(nodes, rep, |nodes|, slots, roots, members, groups)
    requires forall i, j | 0 <= i < |nodes| && 0 <= j < |nodes| :: rep[i] == rep[j] <==> Connected(nodes, i, j)
    ensures IsGrouping(nodes, members, groups)
  {
    forall g, i | 0 <= g < |members| && i in members[g] ensures i < |nodes| && rep[i] == roots[g] {
      assert SlotHolds(nodes, rep, |nodes|, roots[g], members[g], groups[g]);
      var k :| 0 <= k < |members[g]| && members[g][k] == i;
    }
    forall g | 0 <= g < |members|
      ensures members[g] != [] && Increasing(members[g]) && groups[g] == Collect(nodes, members[g])
    {
      assert SlotHolds(nodes, rep, |nodes|, roots[g], members[g], groups[g]);
    }
    forall i: nat | i < |nodes| ensures Listed(members, i) {
      assert i in members[slots[rep[i]]];
    }
  }

  /** The groups of a window: exactly the connected components of "shares an entry or path key". */
  method GroupPullApplications(plans: seq<Plan>, superseded: seq<Superseded>)
      returns (groups: seq<Group>, ghost members: seq<seq<nat>>)
    ensures IsGrouping(Nodes(plans, superseded), members, groups)
  {
    hide Collecting, Forest, Hangs;
    var nodes := Nodes(plans, superseded);
    var parent, rep, rank := BuildForest(nodes);
    var slots: map<nat, nat> := map[];
    ghost var roots: seq<nat> := [];
    groups, members := [], [];
    BuildingSizes(nodes, parent[..], rep, rank);
    CollectingStarts(nodes, rep);
    for index := 0 to |nodes|
      invariant Forest(parent[..], rep, rank)
      invariant Collecting(nodes, rep, index, slots, roots, members, groups)
    {
      ForestFacts(parent[..], rep, rank, index);
      var id := Root(parent, index, rep, rank);
      CollectingStep(nodes, rep, index, slots, roots, members, groups);
      var slot := if id in slots then slots[id] else |groups|;
      roots := if id in slots then roots else roots + [id];
      members := AddIndex(members, slot, index);
      groups := AddTo(groups, slot, nodes[index]);
      slots := slots[id := slot];
    }
    CollectingEnds(nodes, rep, slots, roots, members, groups);
  }

  lemma BuildingSizes(nodes: seq<Node>, parent: seq<nat>, rep: seq<nat>, rank: seq<nat>)
    requires Forest(parent, rep, rank)
    ensures |rep| == |parent|
  {
  }

  lemma CollectingStarts(nodes: seq<Node>, rep: seq<nat>)
    requires |rep| == |nodes|
    ensures Collecting(nodes, rep, 0, map[], [], [], [])
  {
  }

  // ---------------------------------------------------------------- theorems

  lemma IncreasingIsUnique(s: seq<nat>, t: seq<nat>)
    requires Increasing(s) && Increasing(t) && forall x :: x in s <==> x in t
    ensures s == t
  {
    assert |s| > 0 ==> s[0] in t;
    assert |t| > 0 ==> t[0] in s;
    if s != [] && t != [] {
      IncreasingHead(s, t[0]);
      IncreasingHead(t, s[0]);
      forall x ensures x in s[1..] <==> x in t[1..] {
        assert x in s <==> x == s[0] || x in s[1..] by { assert s == [s[0]] + s[1..]; }
        assert x in t <==> x == t[0] || x in t[1..] by { assert t == [t[0]] + t[1..]; }
        IncreasingTail(s);
        IncreasingTail(t);
      }
      IncreasingIsUnique(s[1..], t[1..]);
    }
  }

  lemma IncreasingHead(s: seq<nat>, x: nat)
    requires Increasing(s) && x in s
    ensures s[0] <= x
  {
  }

  lemma IncreasingTail(s: seq<nat>)
    requires Increasing(s) && s != []
    ensures s[0] !in s[1..] && Increasing(s[1..])
  {
  }

  ghost function Heads(members: seq<seq<nat>>): seq<nat>
    requires forall g | 0 <= g < |members| :: members[g] != []
  {
    seq(|members|, g requires 0 <= g < |members| => members[g][0])
  }

  ghost predicate IsFirst(nodes: seq<Node>, n: nat, x: nat) {
    x < n && forall j: nat | j < n && Connected(nodes, x, j) :: x <= j
  }

  lemma HeadsAreFirsts(nodes: seq<Node>, n: nat, members: seq<seq<nat>>, x: nat)
    requires Components(nodes, n, members)
    ensures x in Heads(members) <==> IsFirst(nodes, n, x)
  {
    if x in Heads(members) {
      var g :| 0 <= g < |members| && Heads(members)[g] == x;
      assert x in members[g];
      forall j: nat | j < n && Connected(nodes, x, j) ensures x <= j {
        assert Listed(members, j);
        var h :| 0 <= h < |members| && j in members[h];
        assert x in members[g];
        IncreasingHead(members[g], j);
      }
    }
    if IsFirst(nodes, n, x) {
      assert Listed(members, x);
      var g :| 0 <= g < |members| && x in members[g];
      assert members[g][0] in members[g];
      assert Connected(nodes, x, members[g][0]);
      IncreasingHead(members[g], x);
      assert Heads(members)[g] == x && Heads(members)[g] in Heads(members);
    }
  }

  /** The grouping is determined by the input: there is one list of components. */
  lemma ComponentsAreUnique(nodes: seq<Node>, a: seq<seq<nat>>, b: seq<seq<nat>>)
    requires Components(nodes, |nodes|, a) && Components(nodes, |nodes|, b)
    ensures a == b
  {
    forall x ensures x in Heads(a) <==> x in Heads(b) {
      if x in Heads(a) || x in Heads(b) {
        HeadsAreFirsts(nodes, |nodes|, a, x);
        HeadsAreFirsts(nodes, |nodes|, b, x);
      }
    }
    IncreasingIsUnique(Heads(a), Heads(b));
    forall g | 0 <= g < |a| ensures a[g] == b[g] {
      assert a[g][0] == Heads(a)[g] == Heads(b)[g] == b[g][0];
      SameComponent(nodes, a, b, g);
      SameComponent(nodes, b, a, g);
      IncreasingIsUnique(a[g], b[g]);
    }
  }

  lemma SameComponent(nodes: seq<Node>, a: seq<seq<nat>>, b: seq<seq<nat>>, g: nat)
    requires Components(nodes, |nodes|, a) && Components(nodes, |nodes|, b)
    requires g < |a| && g < |b| && a[g][0] == b[g][0]
    ensures forall x | x in a[g] :: x in b[g]
  {
    forall x | x in a[g] ensures x in b[g] {
      assert a[g][0] in a[g] && b[g][0] in b[g];
      assert Connected(nodes, b[g][0], x);
      assert Listed(b, x);
      var h :| 0 <= h < |b| && x in b[h];
    }
  }

  /** Two nodes of different groups share no entry and no path; every node is in exactly one group. */
  lemma GroupsAreIndependent(nodes: seq<Node>, members: seq<seq<nat>>, groups: seq<Group>, i: nat, j: nat)
    requires IsGrouping(nodes, members, groups) && i < |nodes| && j < |nodes|
    ensures exists g :: 0 <= g < |members| && i in members[g]
    ensures forall g, h | 0 <= g < |members| && 0 <= h < |members| && i in members[g] && j in members[h] && g != h ::
      !ShareKey(nodes, i, j) && i != j
  {
    assert Listed(members, i);
    ConnectedReflexive(nodes, i);
    forall g, h | 0 <= g < |members| && 0 <= h < |members| && i in members[g] && j in members[h] && g != h
      ensures !ShareKey(nodes, i, j) && i != j
    {
      if ShareKey(nodes, i, j) {
        var key :| key in Keys(nodes[i]) && key in Keys(nodes[j]);
        SharingConnects(nodes, i, j, key);
      }
    }
  }

  /** The key strings keep entries and paths apart and never confuse two names. */
  lemma KeysDistinguish(a: string, b: string)
    ensures "entry:" + a != "path:" + b
    ensures "entry:" + a == "entry:" + b <==> a == b
    ensures "path:" + a == "path:" + b <==> a == b
  {
    assert ("entry:" + a)[0] == 'e' && ("path:" + b)[0] == 'p';
    assert ("entry:" + a)[6..] == a && ("entry:" + b)[6..] == b;
    assert ("path:" + a)[5..] == a && ("path:" + b)[5..] == b;
  }
}
