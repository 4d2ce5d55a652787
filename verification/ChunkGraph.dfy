/** Chunks and chunk groups: objects pointing at each other, with two-sided parent/child sets
    among the groups and ordered chunk lists in them. */
module ChunkGraph {
  import opened Common
  import opened ChunkLists
  import opened Reachability

  datatype InsertResult = Inserted | AlreadyThere | BeforeNotFound

  datatype ReplaceResult = Replaced | NotReplaced | Undefined

  class ChunkGroup {
    const isEntrypoint: bool
    const initial: bool
    var children: set<ChunkGroup>
    var parents: set<ChunkGroup>
    var chunks: seq<Chunk>

    constructor (isEntrypoint: bool, initial: bool)
      ensures this.isEntrypoint == isEntrypoint && this.initial == initial
      ensures children == {} && parents == {} && chunks == []
    {
      this.isEntrypoint, this.initial := isEntrypoint, initial;
      children, parents, chunks := {}, {}, [];
    }

    /** false for a plain group, the entry's own flag for an Entrypoint. */
    predicate IsInitial() {
      isEntrypoint && initial
    }

    // ---------- the chunk list ----------

    method UnshiftChunk(chunk: Chunk) returns (added: bool)
      requires NoDup(chunks)
      modifies this`chunks
      ensures chunks == [chunk] + Without(old(chunks), chunk) && NoDup(chunks)
      ensures added <==> chunk !in old(chunks)
    {
      var oldIdx := IndexOf(chunks, chunk);
      WithoutMembers(chunks, chunk);
      if oldIdx > 0 {
        SpliceOutIsWithout(chunks, oldIdx);
        chunks := SpliceOut(chunks, oldIdx);
        chunks := SpliceIn(chunks, 0, chunk);
      } else if oldIdx < 0 {
        WithoutAbsent(chunks, chunk);
        chunks := SpliceIn(chunks, 0, chunk);
        return true;
      } else {
        SpliceOutIsWithout(chunks, 0);
      }
      return false;
    }

    /** chunk ends up before `before`, everything else keeps its order. */
    method InsertChunk(chunk: Chunk, before: Chunk) returns (result: InsertResult)
      requires NoDup(chunks)
      modifies this`chunks
      ensures NoDup(chunks) && Without(chunks, chunk) == Without(old(chunks), chunk)
      ensures result == BeforeNotFound <==> before !in old(chunks)
      ensures result == BeforeNotFound ==> chunks == old(chunks)
      ensures result == Inserted <==> before in old(chunks) && chunk !in old(chunks)
      ensures result != BeforeNotFound ==>
        chunk in chunks && before in chunks && IndexOf(chunks, chunk) <= IndexOf(chunks, before)
      ensures result != BeforeNotFound && chunk in old(chunks) ==>
        IndexOf(old(chunks), chunk) <= IndexOf(old(chunks), before) ==> chunks == old(chunks)
      ensures result != BeforeNotFound && chunks != old(chunks) ==>
        IndexOf(chunks, chunk) + 1 == IndexOf(chunks, before)
      ensures result != BeforeNotFound ==> PutBefore(old(chunks), chunks, chunk, before)
    {
      hide *;
      PutBeforeCases(chunks, chunk, before);
      var oldIdx := IndexOf(chunks, chunk);
      var idx := IndexOf(chunks, before);
      if idx < 0 {
        return BeforeNotFound;
      }
      if oldIdx >= 0 && oldIdx > idx {
        MovedBefore(chunks, oldIdx, idx);
        chunks := SpliceOut(chunks, oldIdx);
        chunks := SpliceIn(chunks, idx, chunk);
      } else if oldIdx < 0 {
        InsertedBefore(chunks, chunk, idx);
        chunks := SpliceIn(chunks, idx, chunk);
        return Inserted;
      }
      return AlreadyThere;
    }

    method PushChunk(chunk: Chunk) returns (added: bool)
      requires NoDup(chunks)
      modifies this`chunks
      ensures NoDup(chunks)
      ensures chunks == if chunk in old(chunks) then old(chunks) else old(chunks) + [chunk]
      ensures added <==> chunk !in old(chunks)
    {
      var oldIdx := IndexOf(chunks, chunk);
      if oldIdx >= 0 {
        return false;
      }
      chunks := chunks + [chunk];
      return true;
    }

    /** Substitute, then keep first occurrences. */
    method ReplaceChunk(oldChunk: Chunk, newChunk: Chunk) returns (result: ReplaceResult)
      requires NoDup(chunks)
      modifies this`chunks
      ensures chunks == Dedup(Subst(old(chunks), oldChunk, newChunk)) && NoDup(chunks)
      ensures result == NotReplaced <==> oldChunk !in old(chunks)
      ensures result == Undefined <==> oldChunk in old(chunks) && oldChunk == newChunk
    {
      var oldIdx := IndexOf(chunks, oldChunk);
      hide *;
      if oldIdx < 0 {
        ReplaceNothing(chunks, oldChunk, newChunk);
        return NotReplaced;
      }
      var newIdx := IndexOf(chunks, newChunk);
      if newIdx < 0 {
        ReplaceAbsent(chunks, oldIdx, newChunk);
        chunks := chunks[oldIdx := newChunk];
        return Replaced;
      }
      if newIdx < oldIdx {
        ReplaceEarlier(chunks, oldIdx, newIdx);
        chunks := SpliceOut(chunks, oldIdx);
        return Replaced;
      } else if newIdx != oldIdx {
        ReplaceLater(chunks, oldIdx, newIdx);
        chunks := chunks[oldIdx := newChunk];
        chunks := SpliceOut(chunks, newIdx);
        return Replaced;
      }
      ReplaceNothing(chunks, oldChunk, newChunk);
      return Undefined;
    }

    method RemoveChunk(chunk: Chunk) returns (removed: bool)
      requires NoDup(chunks)
      modifies this`chunks
      ensures chunks == Without(old(chunks), chunk) && NoDup(chunks)
      ensures removed <==> chunk in old(chunks)
    {
      var idx := IndexOf(chunks, chunk);
      if idx >= 0 {
        SpliceOutIsWithout(chunks, idx);
        chunks := SpliceOut(chunks, idx);
        return true;
      }
      WithoutAbsent(chunks, chunk);
      return false;
    }

    // ---------- parents and children ----------

    method AddChild(group: ChunkGroup) returns (added: bool)
      modifies this`children
      ensures children == old(children) + {group} && (added <==> group !in old(children))
    {
      added := group !in children;
      children := children + {group};
    }

    method AddParent(parent: ChunkGroup) returns (added: bool)
      modifies this`parents
      ensures parents == old(parents) + {parent} && (added <==> parent !in old(parents))
    {
      if parent !in parents {
        parents := parents + {parent};
        return true;
      }
      return false;
    }

    /** Removes the link from both ends; the two directions call each other until nothing is left. */
    method RemoveChild(group: ChunkGroup) returns (removed: bool)
      modifies this`children, group`parents
      ensures removed <==> old(group in children)
      ensures removed ==> children == old(children) - {group} && group.parents == old(group.parents) - {this}
      ensures !removed ==> children == old(children) && group.parents == old(group.parents)
      decreases LinkEnds(this, group)
    {
      if group !in children {
        return false;
      }
      children := children - {group};
      var _ := group.RemoveParent(this);
      return true;
    }

    method RemoveParent(chunkGroup: ChunkGroup) returns (removed: bool)
      modifies this`parents, chunkGroup`children
      ensures removed <==> old(chunkGroup in parents)
      ensures removed ==>
        parents == old(parents) - {chunkGroup} && chunkGroup.children == old(chunkGroup.children) - {this}
      ensures !removed ==> parents == old(parents) && chunkGroup.children == old(chunkGroup.children)
      decreases LinkEnds(chunkGroup, this)
    {
      if chunkGroup in parents {
        parents := parents - {chunkGroup};
        var _ := chunkGroup.RemoveChild(this);
        return true;
      }
      return false;
    }

    /** Both directions of every link of this group are present. */
    method CheckConstraints() returns (ok: bool)
      ensures ok <==>
        (forall child :: child in children ==> this in child.parents) &&
        (forall parent :: parent in parents ==> this in parent.children)
    {
      var todo := children;
      while todo != {}
        invariant todo <= children
        invariant forall child :: child in children - todo ==> this in child.parents
      {
        var child :| child in todo;
        if this !in child.parents {
          return false;
        }
        todo := todo - {child};
      }
      todo := parents;
      while todo != {}
        invariant todo <= parents
        invariant forall parent :: parent in parents - todo ==> this in parent.children
      {
        var parent :| parent in todo;
        if this !in parent.children {
          return false;
        }
        todo := todo - {parent};
      }
      return true;
    }

    /** Joins one parent to the children, which it gains in place of this group; the group itself, as its
        own parent, only loses itself. */
    method Bypass(parent: ChunkGroup, ghost G: set<ChunkGroup>)
      requires parent in G && this in G && children <= G && (this in children ==> parent in parents)
      modifies parent`children, children`parents
      ensures parent.children ==
        if parent == this then old(children) - {this} else (old(parent.children) - {this}) + old(children)
      ensures forall g: ChunkGroup :: g in old(children) ==> g.parents == old(g.parents) + {parent}
    {
      parent.children := parent.children - {this};
      ghost var all, kids := children, parent.children;
      var todo := children;
      while todo != {}
        invariant todo <= all && children == (if parent == this then all else old(children))
        invariant parent.children == if parent == this then all else kids + (all - todo)
        invariant forall g :: g in all - todo ==> g.parents == old(g.parents) + {parent}
        invariant forall g :: g in old(children) && g !in all - todo ==> g.parents == old(g.parents)
      {
        var chunkGroup :| chunkGroup in todo;
        var _ := chunkGroup.AddParent(parent);
        var _ := parent.AddChild(chunkGroup);
        todo := todo - {chunkGroup};
      }
    }

    /** Bypass, as one step of Joined. */
    method JoinParent(parent: ChunkGroup, ghost kids: Graph<ChunkGroup>, ghost order: seq<ChunkGroup>,
                      ghost G: set<ChunkGroup>)
      requires parent in G && this in G && children <= G && (this in children ==> parent in parents)
      requires kids.Keys == G && (forall p :: p in order ==> p in kids) && ChildMap(G) == Joined(kids, this, order)
      modifies parent`children, children`parents
      ensures ChildMap(G) == Joined(kids, this, order + [parent])
      ensures children == if parent == this then old(children) - {this} else old(children)
      ensures forall g: ChunkGroup :: g in old(children) ==> g.parents == old(g.parents) + {parent}
    {
      ghost var before := ChildMap(G);
      hide Joined;
      JoinedMore(kids, this, order, parent);
      Bypass(parent, G);
      assert before[this] == old(children) && before[parent] == old(parent.children);
      assert ChildMap(G) == before[parent := parent.children];
    }

    /** Bypasses this group for every parent, in whatever order they come. */
    method JoinNeighbours(ghost G: set<ChunkGroup>) returns (ghost order: seq<ChunkGroup>)
      requires this in G && Linked(G)
      modifies G`children, G`parents
      ensures Enumerates(order, old(parents)) && old(parents) <= G && children == old(children) - {this}
      ensures ChildMap(G) == Joined(old(ChildMap(G)), this, order)
      ensures forall g :: g in G ==>
        (g.parents == if g in old(children) then old(g.parents) + old(parents) else old(g.parents))
    {
      hide *;
      order := [];
      ghost var kids, above := ChildMap(G), parents;
      StartJoining(this, G);
      var todo := parents;
      ghost var joined := {};
      while todo != {}
        invariant joined + todo == above && joined !! todo && above <= G && parents == above
        invariant Enumerates(order, joined) && forall p :: p in order ==> p in kids
        invariant ChildMap(G) == Joined(kids, this, order)
        invariant children == (if this in todo then old(children) else old(children) - {this}) && children <= G
        invariant forall g :: g in G ==>
          (g.parents == if g in old(children) then old(g.parents) + joined else old(g.parents))
      {
        var parentChunkGroup :| parentChunkGroup in todo;
        JoinParent(parentChunkGroup, kids, order, G);
        EnumeratesMore(order, joined, parentChunkGroup);
        order := order + [parentChunkGroup];
        joined := joined + {parentChunkGroup};
        todo := todo - {parentChunkGroup};
      }
      assert joined == above;
    }

    /** The children drop this group from their parents. */
    method LeaveChildren(ghost G: set<ChunkGroup>)
      requires this in G && children <= G && this !in children
      modifies children`parents
      ensures forall g :: g in G ==> (g.parents == if g in children then old(g.parents) - {this} else old(g.parents))
    {
      var todo := children;
      while todo != {}
        invariant todo <= children && children == old(children)
        invariant forall g :: g in G ==>
          (g.parents == if g in children - todo then old(g.parents) - {this} else old(g.parents))
      {
        var chunkGroup :| chunkGroup in todo;
        chunkGroup.parents := chunkGroup.parents - {this};
        todo := todo - {chunkGroup};
      }
    }

    method LeaveChunks()
      modifies chunks
      ensures forall c: Chunk :: c in chunks ==> c.groups == old(c.groups) - {this}
    {
      for i := 0 to |chunks|
        invariant forall c: Chunk :: c in chunks ==>
          (c.groups == if c in chunks[..i] then old(c.groups) - {this} else old(c.groups))
      {
        chunks[i].RemoveGroup(this);
      }
    }

    /** Both loops over the neighbours: the parents are joined to the children, which drop this group. */
    method Unlink(ghost G: set<ChunkGroup>) returns (ghost order: seq<ChunkGroup>)
      requires this in G && Linked(G)
      modifies G`children, G`parents
      ensures Enumerates(order, old(parents)) && old(parents) <= G
      ensures ChildMap(G) == Joined(old(ChildMap(G)), this, order)
      ensures forall g :: g in G && g != this ==>
        (g.parents == if this in old(g.parents) then (old(g.parents) + old(parents)) - {this} else old(g.parents))
      ensures children == old(children) - {this} && parents == old(parents)
    {
      hide Joined;
      assert forall g :: g in G ==> (this in g.parents <==> g in children);
      assert children <= G;
      order := JoinNeighbours(G);
      LeaveChildren(G);
    }

    /** Takes this group out of the graph, joining its parents to its children, which keeps links
        symmetric among the others. Only a group that is its own child can stay behind as a child: of the
        parents that come before itself. */
    method Remove(ghost G: set<ChunkGroup>, ghost C: set<Chunk>) returns (ghost order: seq<ChunkGroup>)
      requires this in G && Linked(G)
      requires forall c :: c in C && this in c.groups ==> c in chunks
      modifies G`children, G`parents, chunks
      ensures Enumerates(order, old(parents)) && old(parents) <= G
      ensures ChildMap(G) == Joined(old(ChildMap(G)), this, order)
      ensures ParentMap(G - {this}) == Contract(old(ParentMap(G)), this)
      ensures forall g :: g in G - {this} ==>
        this !in g.parents && g.children - {this} == Contract(old(ChildMap(G)), this)[g]
      ensures forall a, b :: a in G - {this} && b in G - {this} ==> (b in a.children <==> a in b.parents)
      ensures (forall g :: g in G - {this} ==> this !in g.children) <==> this !in old(parents) || order[0] == this
      ensures children == old(children) - {this} && parents == old(parents)
      ensures forall c :: c in C ==> c.groups == old(c.groups) - {this}
    {
      hide *;
      ghost var kids, above := ChildMap(G), ParentMap(G);
      LinkedMaps(G);
      order := Unlink(G);
      Removed(kids, above, this, G, order);
      LeaveChunks();
    }
  }

  ghost predicate Enumerates(order: seq<ChunkGroup>, s: set<ChunkGroup>) {
    QueueSet(order) == s && forall i, j :: 0 <= i < j < |order| ==> order[i] != order[j]
  }

  lemma StartJoining(x: ChunkGroup, G: set<ChunkGroup>)
    requires x in G && Linked(G)
    ensures x.children <= G && x.parents <= G && (x in x.children <==> x in x.parents)
    ensures ChildMap(G).Keys == G && Joined(ChildMap(G), x, []) == ChildMap(G) && Enumerates([], {})
  {
  }

  lemma LinkedMaps(G: set<ChunkGroup>)
    requires Linked(G)
    ensures var kids, above := ChildMap(G), ParentMap(G);
      && kids.Keys == G && above.Keys == G
      && (forall g :: g in G ==> kids[g] == g.children && above[g] == g.parents && kids[g] <= G && above[g] <= G)
      && forall g, h :: g in G && h in G ==> (h in kids[g] <==> g in above[h])
  {
  }

  lemma EnumeratesMore(order: seq<ChunkGroup>, s: set<ChunkGroup>, p: ChunkGroup)
    requires Enumerates(order, s) && p !in s
    ensures Enumerates(order + [p], s + {p})
  {
    assert forall i :: 0 <= i < |order| ==> order[i] in QueueSet(order);
  }

  /** What the two loops leave, from the links there were. */
  lemma Removed(kids: Graph<ChunkGroup>, above: Graph<ChunkGroup>, x: ChunkGroup, G: set<ChunkGroup>,
                order: seq<ChunkGroup>)
    requires x in G && kids.Keys == G && above.Keys == G && Enumerates(order, above[x])
    requires forall g :: g in G ==> kids[g] <= G && above[g] <= G
    requires forall g, h :: g in G && h in G ==> (h in kids[g] <==> g in above[h])
    requires ChildMap(G) == Joined(kids, x, order)
    requires forall g :: g in G && g != x ==>
      (g.parents == if x in above[g] then (above[g] + above[x]) - {x} else above[g])
    ensures ParentMap(G - {x}) == Contract(above, x)
    ensures forall g :: g in G - {x} ==> x !in g.parents && g.children - {x} == Contract(kids, x)[g]
    ensures forall a, b :: a in G - {x} && b in G - {x} ==> (b in a.children <==> a in b.parents)
    ensures (forall g :: g in G - {x} ==> x !in g.children) <==> x !in above[x] || order[0] == x
  {
    RemovedChildren(kids, above, x, G, order);
    RemovedParents(above, x, G);
    ContractLacks(kids, x);
    ContractLacks(above, x);
    hide *;
    RemovedLinks(kids, above, x, G);
  }

  lemma RemovedChildren(kids: Graph<ChunkGroup>, above: Graph<ChunkGroup>, x: ChunkGroup, G: set<ChunkGroup>,
                        order: seq<ChunkGroup>)
    requires x in G && kids.Keys == G && above.Keys == G && Enumerates(order, above[x]) && above[x] <= G
    requires forall g :: g in G ==> (x in kids[g] <==> g in above[x])
    requires ChildMap(G) == Joined(kids, x, order)
    ensures forall g :: g in G - {x} ==> g.children - {x} == Contract(kids, x)[g]
    ensures (forall g :: g in G - {x} ==> x !in g.children) <==> x !in above[x] || order[0] == x
  {
    assert forall p: ChunkGroup :: p in order <==> p in kids && x in kids[p];
    NobodyPointsBackIff(kids, x, order);
    assert forall g :: g in G ==> g.children == Joined(kids, x, order)[g];
    hide Joined;
    forall g | g in G - {x} ensures g.children - {x} == Contract(kids, x)[g] {
      JoinedIsContract(kids, x, order, g);
    }
  }

  lemma RemovedParents(above: Graph<ChunkGroup>, x: ChunkGroup, G: set<ChunkGroup>)
    requires x in G && above.Keys == G
    requires forall g :: g in G && g != x ==>
      (g.parents == if x in above[g] then (above[g] + above[x]) - {x} else above[g])
    ensures ParentMap(G - {x}) == Contract(above, x)
    ensures forall g :: g in G - {x} ==> x !in g.parents && g.parents == Contract(above, x)[g]
  {
    ContractedBy(above, ParentMap(G - {x}), x);
    ContractLacks(above, x);
    assert forall g :: g in G - {x} ==> g.parents == ParentMap(G - {x})[g];
  }

  lemma RemovedLinks(kids: Graph<ChunkGroup>, above: Graph<ChunkGroup>, x: ChunkGroup, G: set<ChunkGroup>)
    requires x in G && kids.Keys == G && above.Keys == G
    requires forall g, h :: g in G && h in G ==> (h in kids[g] <==> g in above[h])
    requires forall g :: g in G - {x} ==> g in Contract(kids, x) && g.children - {x} == Contract(kids, x)[g]
    requires forall g :: g in G - {x} ==> g in Contract(above, x) && g.parents == Contract(above, x)[g]
    ensures forall a, b :: a in G - {x} && b in G - {x} ==> (b in a.children <==> a in b.parents)
  {
    hide *;
    forall a, b | a in G - {x} && b in G - {x} ensures b in a.children <==> a in b.parents {
      ContractBothWays(kids, above, x, a, b);
      assert b in a.children <==> b in a.children - {x};
    }
  }

  lemma ContractedBy(m: Graph<ChunkGroup>, r: Graph<ChunkGroup>, x: ChunkGroup)
    requires x in m && r.Keys == m.Keys - {x}
    requires forall g :: g in m && g != x ==> (r[g] == if x in m[g] then (m[g] + m[x]) - {x} else m[g])
    ensures r == Contract(m, x)
  {
    assert forall g :: g in m && g != x ==> (m[g] + m[x]) - {x} == (m[g] - {x}) + (m[x] - {x});
  }

  /** Taking a group out keeps who can reach whom among the others. */
  method RemoveKeepsReach(group: ChunkGroup, ghost G: set<ChunkGroup>, ghost C: set<Chunk>)
    requires group in G && Linked(G) && forall c :: c in C && group in c.groups ==> c in group.chunks
    modifies G`children, G`parents, group.chunks
    ensures forall a, b :: a in G && b in G && a != group && b != group ==>
      (Reaches(ChildMap(G - {group}), a, b) <==> old(Reaches(ChildMap(G), a, b)))
  {
    ghost var kids := ChildMap(G);
    assert forall g :: g in kids ==> kids[g] <= kids.Keys;
    ghost var _ := group.Remove(G, C);
    hide Linked, Reaches, Contract;
    forall a, b | a in G && b in G && a != group && b != group
      ensures Reaches(ChildMap(G - {group}), a, b) <==> Reaches(kids, a, b)
    {
      assert forall g :: g in G - {group} ==> ChildMap(G - {group})[g] - {group} == Contract(kids, group)[g];
      SameReach(ChildMap(G - {group}), Contract(kids, group), a, b);
      ContractKeepsReach(kids, group, a, b);
    }
  }

  /** How many ends of the link from parent to child are recorded. */
  ghost function LinkEnds(parent: ChunkGroup, child: ChunkGroup): nat
    reads parent, child
  {
    (if child in parent.children then 1 else 0) + (if parent in child.parents then 1 else 0)
  }

  /** All links stay in G and are recorded at both ends. */
  ghost predicate Linked(G: set<ChunkGroup>)
    reads G
  {
    && (forall g :: g in G ==> g.children <= G && g.parents <= G)
    && (forall a, b :: a in G && b in G ==> (b in a.children <==> a in b.parents))
  }

  ghost function ChildMap(G: set<ChunkGroup>): Graph<ChunkGroup>
    reads G
  {
    map g | g in G :: g.children
  }

  ghost function ParentMap(G: set<ChunkGroup>): Graph<ChunkGroup>
    reads G
  {
    map g | g in G :: g.parents
  }

  class Chunk {
    var groups: set<ChunkGroup>

    constructor ()
      ensures groups == {}
    {
      groups := {};
    }

    method AddGroup(chunkGroup: ChunkGroup)
      modifies this
      ensures groups == old(groups) + {chunkGroup}
    {
      groups := groups + {chunkGroup};
    }

    method RemoveGroup(chunkGroup: ChunkGroup)
      modifies this
      ensures groups == old(groups) - {chunkGroup}
    {
      groups := groups - {chunkGroup};
    }

    /** newChunk joins every group of this chunk, in front of it. */
    method Split(newChunk: Chunk, ghost G: set<ChunkGroup>, ghost C: set<Chunk>)
      requires this in C && newChunk in C && groups <= G && Consistent(G, C)
      modifies groups`chunks, newChunk
      ensures Consistent(G, C)
      ensures newChunk.groups == old(newChunk.groups) + old(groups)
      ensures forall g :: g in old(groups) ==> PutBefore(old(g.chunks), g.chunks, newChunk, this)
    {
      var todo := groups;
      ghost var mine := groups;
      ghost var theirs := newChunk.groups;
      assert forall g :: g in mine ==> this in g.chunks;
      while todo != {}
        invariant todo <= mine
        invariant newChunk.groups == theirs + (mine - todo)
        invariant Consistent(G, C)
        invariant forall g :: g in todo ==> g.chunks == old(g.chunks) && this in g.chunks
        invariant forall g :: g in mine - todo ==> PutBefore(old(g.chunks), g.chunks, newChunk, this)
      {
        var chunkGroup :| chunkGroup in todo;
        SplitOne(chunkGroup, newChunk, G, C);
        todo := todo - {chunkGroup};
      }
    }

    method SplitOne(chunkGroup: ChunkGroup, newChunk: Chunk, ghost G: set<ChunkGroup>, ghost C: set<Chunk>)
      requires this in C && newChunk in C && chunkGroup in G && Consistent(G, C) && this in chunkGroup.chunks
      modifies chunkGroup`chunks, newChunk
      ensures Consistent(G, C)
      ensures newChunk.groups == old(newChunk.groups) + {chunkGroup}
      ensures PutBefore(old(chunkGroup.chunks), chunkGroup.chunks, newChunk, this)
    {
      ghost var before := chunkGroup.chunks;
      hide Without;
      var _ := chunkGroup.InsertChunk(newChunk, this);
      newChunk.AddGroup(chunkGroup);
      SameMembers(before, chunkGroup.chunks, newChunk);
    }

    // ---------- worklist queries ----------

    /** The chunks that every group of this chunk has. */
    method CommonChunks(ghost G: set<ChunkGroup>) returns (initialChunks: set<Chunk>)
      requires groups <= G
      ensures initialChunks == CommonIn(ChunkMap(G), groups)
    {
      var order := QueueOf(groups);
      var sets: seq<set<Chunk>> := [];
      for i := 0 to |order|
        invariant |sets| == i && forall j :: 0 <= j < i ==> sets[j] == set c | c in order[j].chunks
      {
        sets := sets + [set c | c in order[i].chunks];
      }
      initialChunks := Intersect(sets);
      ghost var lists := ChunkMap(G);
      assert forall g :: g in groups ==> g in lists && lists[g] == g.chunks;
      CommonOfSets(lists, groups, order, sets, initialChunks);
    }

    /** The chunks of every group reached from this chunk's groups. */
    method GetAllReferencedChunks(ghost G: set<ChunkGroup>) returns (chunks: set<Chunk>)
      requires groups <= G && ChildrenInside(G)
      ensures chunks == ChunksIn(ChunkMap(G), Reached(ChildMap(G), groups))
    {
      ghost var m, lists := ChildMap(G), ChunkMap(G);
      var queue := QueueOf(groups);
      WorklistStart(m, groups, queue);
      assert Snapshot(G, m, lists);
      chunks := CollectFrom(queue, {}, G, m, lists, groups);
    }

    /** The chunks of the initial groups reached over initial groups only. */
    method GetAllInitialChunks(ghost G: set<ChunkGroup>) returns (chunks: set<Chunk>)
      requires groups <= G && ChildrenInside(G)
      ensures chunks == ChunksIn(InitialChunkMap(G), Reached(InitialMap(G), groups))
      ensures forall c: Chunk :: c in chunks <==>
        exists p: seq<ChunkGroup> :: InitialPath(ChildMap(G), p) && p[0] in groups && c in p[|p| - 1].chunks
    {
      ghost var m, lists := InitialMap(G), InitialChunkMap(G);
      var queue := QueueOf(groups);
      WorklistStart(m, groups, queue);
      assert InitialSnapshot(G, m, lists);
      chunks := CollectInitialFrom(queue, G, m, lists, groups);
      InitialReached(G, m, lists, groups, chunks);
    }

    /** The chunks outside the common ones of the groups at the end of a path that leaves the entries. */
    method GetAllAsyncChunks(ghost G: set<ChunkGroup>) returns (chunks: set<Chunk>)
      requires groups <= G && ChildrenInside(G)
      ensures chunks == AsyncChunks(ChildMap(G), ChunkMap(G), Entries(G), groups)
    {
      var initialChunks := CommonChunks(G);
      chunks := CollectAsync(groups, initialChunks, G, ChildMap(G), ChunkMap(G));
    }

    /** Whether some group below this chunk's groups has a chunk that is not common to all of them. */
    method HasAsyncChunks(ghost G: set<ChunkGroup>) returns (found: bool)
      requires groups <= G && ChildrenInside(G)
      ensures found <==> AsyncBelow(ChildMap(G), ChunkMap(G), groups) != {}
    {
      var initialChunks := CommonChunks(G);
      found := FindBelow(groups, initialChunks, G, ChildMap(G), ChunkMap(G));
    }
  }

  /** The chunks outside the common ones of the groups at the end of a path that leaves the entries. */
  ghost function AsyncChunks(m: Graph<ChunkGroup>, lists: map<ChunkGroup, seq<Chunk>>, e: set<ChunkGroup>,
                             groups: set<ChunkGroup>): set<Chunk> {
    ChunksIn(lists, AsyncGroups(m, e, groups)) - CommonIn(lists, groups)
  }

  method CollectAsync(groups: set<ChunkGroup>, initialChunks: set<Chunk>, ghost G: set<ChunkGroup>,
                      ghost m: Graph<ChunkGroup>, ghost lists: map<ChunkGroup, seq<Chunk>>)
    returns (chunks: set<Chunk>)
    requires groups <= G && ChildrenInside(G) && m == ChildMap(G) && lists == ChunkMap(G)
    requires initialChunks == CommonIn(lists, groups)
    ensures chunks == AsyncChunks(m, lists, Entries(G), groups)
  {
    assert Snapshot(G, m, lists);
    var queue := QueueBehindEntries(groups, G);
    StartLeaving(G, m, lists, Entries(G), groups, queue);
    AsyncGroupsReached(G, m, lists, Entries(G), groups);
    hide ChunksIn, Reached, CommonIn, ChildrenInside, ChildMap, ChunkMap, Worklist, Leaving, AsyncGroups, Entries,
         Leaves;
    chunks := CollectFrom(queue, initialChunks, G, m, lists, Leaving(m, Entries(G), groups));
  }

  /** The chunks outside the common ones of all groups one or more steps below the given ones. */
  ghost function AsyncBelow(m: Graph<ChunkGroup>, lists: map<ChunkGroup, seq<Chunk>>,
                            groups: set<ChunkGroup>): set<Chunk> {
    ChunksIn(lists, Reached(m, ChildrenOf(m, groups))) - CommonIn(lists, groups)
  }

  /** Asynchronous chunks are referenced chunks, and there are none unless hasAsyncChunks says so. */
  lemma AsyncIsReferenced(m: Graph<ChunkGroup>, lists: map<ChunkGroup, seq<Chunk>>, e: set<ChunkGroup>,
                          groups: set<ChunkGroup>)
    ensures AsyncChunks(m, lists, e, groups) <= ChunksIn(lists, Reached(m, groups))
    ensures AsyncChunks(m, lists, e, groups) <= AsyncBelow(m, lists, groups)
  {
    forall x | x in AsyncGroups(m, e, groups)
      ensures From(m, groups, x) && From(m, ChildrenOf(m, groups), x)
    {
      var p :| LeavingPath(m, e, groups, p, x);
      var q := p[1..];
      assert Edge(m, p[0], p[1]);
      forall i | 0 <= i < |q| - 1 ensures Edge(m, q[i], q[i + 1]) {
        assert Edge(m, p[i + 1], p[i + 2]);
      }
      assert IsPath(m, q) && q[0] in ChildrenOf(m, groups);
    }
  }

  method FindBelow(groups: set<ChunkGroup>, initialChunks: set<Chunk>, ghost G: set<ChunkGroup>,
                   ghost m: Graph<ChunkGroup>, ghost lists: map<ChunkGroup, seq<Chunk>>)
    returns (found: bool)
    requires groups <= G && ChildrenInside(G) && m == ChildMap(G) && lists == ChunkMap(G)
    requires initialChunks == CommonIn(lists, groups)
    ensures found <==> AsyncBelow(m, lists, groups) != {}
  {
    assert Snapshot(G, m, lists);
    var queue := QueueChildren(groups, G);
    StartChildren(G, m, lists, groups, queue);
    hide ChunksIn, Reached, CommonIn, ChildrenOf, ChildrenInside, ChildMap, ChunkMap, Worklist;
    found := FindFrom(queue, initialChunks, G, m, lists, ChildrenOf(m, groups));
  }

  lemma StartLeaving(G: set<ChunkGroup>, m: Graph<ChunkGroup>, lists: map<ChunkGroup, seq<Chunk>>, e: set<ChunkGroup>,
                     start: set<ChunkGroup>, queue: seq<ChunkGroup>)
    requires Snapshot(G, m, lists) && forall x: ChunkGroup :: x in queue <==> Leaves(m, e, start, x)
    ensures Worklist(m, Leaving(m, e, start), queue, 0)
  {
    hide Leaves;
    assert forall x: ChunkGroup :: Leaves(m, e, start, x) ==> x in m by {
      LeavesInside(m, e, start);
    }
    WorklistStart(m, Leaving(m, e, start), queue);
  }

  lemma LeavesInside(m: Graph<ChunkGroup>, e: set<ChunkGroup>, start: set<ChunkGroup>)
    ensures forall x: ChunkGroup :: Leaves(m, e, start, x) ==> x in m
  {
  }

  lemma StartChildren(G: set<ChunkGroup>, m: Graph<ChunkGroup>, lists: map<ChunkGroup, seq<Chunk>>,
                      start: set<ChunkGroup>, queue: seq<ChunkGroup>)
    requires Snapshot(G, m, lists) && forall x: ChunkGroup :: x in queue <==> x in ChildrenOf(m, start)
    ensures Worklist(m, ChildrenOf(m, start), queue, 0)
  {
    WorklistStart(m, ChildrenOf(m, start), queue);
  }

  /** m and lists record the current children and chunks of the groups in G. */
  ghost predicate Snapshot(G: set<ChunkGroup>, m: Graph<ChunkGroup>, lists: map<ChunkGroup, seq<Chunk>>)
    reads G
  {
    && m.Keys == G && lists.Keys == G
    && forall g :: g in G ==> m[g] == g.children && g.children <= G && lists[g] == g.chunks
  }

  /** The loop shared by the queries: collect every group's chunks but those in skip, queue its children. */
  method CollectFrom(start: seq<ChunkGroup>, skip: set<Chunk>, ghost G: set<ChunkGroup>,
                     ghost m: Graph<ChunkGroup>, ghost lists: map<ChunkGroup, seq<Chunk>>, ghost from: set<ChunkGroup>)
    returns (chunks: set<Chunk>)
    requires Snapshot(G, m, lists) && Worklist(m, from, start, 0)
    ensures chunks == ChunksIn(lists, Reached(m, from)) - skip
  {
    var queue := start;
    chunks := {};
    var i := 0;
    assert ChunksIn(lists, QueueSet(queue[..0])) == {};
    hide *;
    while i < |queue|
      invariant 0 <= i <= |queue| && Snapshot(G, m, lists)
      invariant Worklist(m, from, queue, i) && chunks == ChunksIn(lists, QueueSet(queue[..i])) - skip
      decreases G - QueueSet(queue), |queue| - i
    {
      queue, chunks := TakeGroup(queue, i, chunks, skip, G, m, lists, from);
      i := i + 1;
    }
    WorklistDone(m, from, queue);
    QueueSetWhole(queue);
  }

  method TakeGroup(queue: seq<ChunkGroup>, i: nat, chunks: set<Chunk>, skip: set<Chunk>, ghost G: set<ChunkGroup>,
                   ghost m: Graph<ChunkGroup>, ghost lists: map<ChunkGroup, seq<Chunk>>, ghost from: set<ChunkGroup>)
    returns (queue': seq<ChunkGroup>, chunks': set<Chunk>)
    requires Snapshot(G, m, lists) && i < |queue|
    requires Worklist(m, from, queue, i) && chunks == ChunksIn(lists, QueueSet(queue[..i])) - skip
    ensures i + 1 <= |queue'| && Worklist(m, from, queue', i + 1)
    ensures chunks' == ChunksIn(lists, QueueSet(queue'[..i + 1])) - skip
    ensures queue' == queue || G - QueueSet(queue') < G - QueueSet(queue)
  {
    WorklistHas(m, from, queue, i);
    var chunkGroup := queue[i];
    chunks' := chunks + (set c | c in chunkGroup.chunks && c !in skip);
    queue' := AddAll(queue, chunkGroup.children);
    TakeNext(G, m, from, queue, queue', i);
    ChunksInNext(lists, queue, queue', i);
  }

  /** The same walk, stopping at the first chunk that is not in skip. */
  method FindFrom(start: seq<ChunkGroup>, skip: set<Chunk>, ghost G: set<ChunkGroup>,
                  ghost m: Graph<ChunkGroup>, ghost lists: map<ChunkGroup, seq<Chunk>>, ghost from: set<ChunkGroup>)
    returns (found: bool)
    requires Snapshot(G, m, lists) && Worklist(m, from, start, 0)
    ensures found <==> ChunksIn(lists, Reached(m, from)) - skip != {}
  {
    var queue := start;
    var i := 0;
    assert ChunksIn(lists, QueueSet(queue[..0])) - skip == {};
    hide *;
    while i < |queue|
      invariant 0 <= i <= |queue| && Snapshot(G, m, lists)
      invariant Worklist(m, from, queue, i) && ChunksIn(lists, QueueSet(queue[..i])) - skip == {}
      decreases G - QueueSet(queue), |queue| - i
    {
      var chunks;
      ghost var before := queue;
      queue, chunks := TakeGroup(queue, i, {}, skip, G, m, lists, from);
      if chunks != {} {
        WitnessChunk(m, lists, from, queue, i + 1);
        return true;
      }
      i := i + 1;
    }
    WorklistDone(m, from, queue);
    QueueSetWhole(queue);
    return false;
  }

  lemma WitnessChunk(m: Graph<ChunkGroup>, lists: map<ChunkGroup, seq<Chunk>>, from: set<ChunkGroup>,
                     queue: seq<ChunkGroup>, i: nat)
    requires i <= |queue| && Worklist(m, from, queue, i)
    ensures ChunksIn(lists, QueueSet(queue[..i])) <= ChunksIn(lists, Reached(m, from))
  {
    assert forall g: ChunkGroup :: g in queue[..i] ==> g in queue;
  }

  // ---------- initial groups ----------

  method CollectInitialFrom(start: seq<ChunkGroup>, ghost G: set<ChunkGroup>,
                            ghost m: Graph<ChunkGroup>, ghost lists: map<ChunkGroup, seq<Chunk>>,
                            ghost from: set<ChunkGroup>)
    returns (chunks: set<Chunk>)
    requires InitialSnapshot(G, m, lists) && Worklist(m, from, start, 0)
    ensures chunks == ChunksIn(lists, Reached(m, from))
  {
    var queue := start;
    chunks := {};
    var i := 0;
    assert ChunksIn(lists, QueueSet(queue[..0])) == {};
    hide *;
    while i < |queue|
      invariant 0 <= i <= |queue| && InitialSnapshot(G, m, lists)
      invariant Worklist(m, from, queue, i) && chunks == ChunksIn(lists, QueueSet(queue[..i]))
      decreases G - QueueSet(queue), |queue| - i
    {
      queue, chunks := TakeInitial(queue, i, chunks, G, m, lists, from);
      i := i + 1;
    }
    WorklistDone(m, from, queue);
    QueueSetWhole(queue);
  }

  /** Only initial groups have their children visited. */
  ghost function InitialMap(G: set<ChunkGroup>): Graph<ChunkGroup>
    reads G
  {
    map g | g in G :: if g.IsInitial() then g.children else {}
  }

  ghost function InitialChunkMap(G: set<ChunkGroup>): map<ChunkGroup, seq<Chunk>>
    reads G
  {
    map g | g in G :: if g.IsInitial() then g.chunks else []
  }

  /** p goes over entrypoints of the initial load only, from a group to one of its children each time. */
  ghost predicate InitialPath(m: Graph<ChunkGroup>, p: seq<ChunkGroup>) {
    IsPath(m, p) && forall i :: 0 <= i < |p| ==> p[i].isEntrypoint && p[i].initial
  }

  lemma InitialEdge(G: set<ChunkGroup>, a: ChunkGroup, b: ChunkGroup)
    ensures Edge(InitialMap(G), a, b) <==> a.isEntrypoint && a.initial && Edge(ChildMap(G), a, b)
  {
  }

  lemma IsInitialPath(G: set<ChunkGroup>, p: seq<ChunkGroup>)
    requires p != []
    ensures InitialPath(ChildMap(G), p) <==>
      IsPath(InitialMap(G), p) && p[|p| - 1].isEntrypoint && p[|p| - 1].initial
  {
    var m, kids := InitialMap(G), ChildMap(G);
    assert m.Keys == kids.Keys == G;
    hide InitialMap, ChildMap, Edge;
    if IsPath(m, p) && p[|p| - 1].isEntrypoint && p[|p| - 1].initial {
      forall i | 0 <= i < |p|
        ensures p[i].isEntrypoint && p[i].initial && (i < |p| - 1 ==> Edge(kids, p[i], p[i + 1]))
      {
        if i < |p| - 1 {
          assert Edge(m, p[i], p[i + 1]);
          InitialEdge(G, p[i], p[i + 1]);
        }
      }
    }
    if InitialPath(kids, p) {
      forall i | 0 <= i < |p| - 1 ensures Edge(m, p[i], p[i + 1]) {
        assert Edge(kids, p[i], p[i + 1]);
        InitialEdge(G, p[i], p[i + 1]);
      }
    }
  }

  lemma InitialChunksAt(G: set<ChunkGroup>, g: ChunkGroup, c: Chunk)
    ensures g in InitialChunkMap(G) && c in InitialChunkMap(G)[g] <==>
      g in G && g.isEntrypoint && g.initial && c in g.chunks
  {
  }

  lemma InitialReached(G: set<ChunkGroup>, m: Graph<ChunkGroup>, lists: map<ChunkGroup, seq<Chunk>>,
                       groups: set<ChunkGroup>, chunks: set<Chunk>)
    requires m == InitialMap(G) && lists == InitialChunkMap(G)
    requires chunks == ChunksIn(lists, Reached(m, groups))
    ensures forall c: Chunk :: c in chunks <==>
      exists p: seq<ChunkGroup> :: InitialPath(ChildMap(G), p) && p[0] in groups && c in p[|p| - 1].chunks
  {
    var kids := ChildMap(G);
    assert forall p: seq<ChunkGroup> :: InitialPath(kids, p) ==> p != [] && p[|p| - 1] in G;
    assert m.Keys == G;
    hide InitialMap, InitialChunkMap, InitialPath, ChildMap, IsPath;
    forall c: Chunk ensures c in chunks <==>
      exists p: seq<ChunkGroup> :: InitialPath(kids, p) && p[0] in groups && c in p[|p| - 1].chunks
    {
      if c in chunks {
        var g :| g in Reached(m, groups) && g in lists && c in lists[g];
        var p: seq<ChunkGroup> :| IsPath(m, p) && p[0] in groups && p[|p| - 1] == g;
        InitialChunksAt(G, g, c);
        IsInitialPath(G, p);
      }
      if p: seq<ChunkGroup> :| InitialPath(kids, p) && p[0] in groups && c in p[|p| - 1].chunks {
        IsInitialPath(G, p);
        InitialChunksAt(G, p[|p| - 1], c);
        assert From(m, groups, p[|p| - 1]);
      }
    }
  }

  ghost predicate InitialSnapshot(G: set<ChunkGroup>, m: Graph<ChunkGroup>, lists: map<ChunkGroup, seq<Chunk>>)
    reads G
  {
    && m.Keys == G && lists.Keys == G
    && forall g :: g in G ==>
         && m[g] == (if g.IsInitial() then g.children else {}) && g.children <= G
         && lists[g] == if g.IsInitial() then g.chunks else []
  }

  method TakeInitial(queue: seq<ChunkGroup>, i: nat, chunks: set<Chunk>, ghost G: set<ChunkGroup>,
                     ghost m: Graph<ChunkGroup>, ghost lists: map<ChunkGroup, seq<Chunk>>, ghost from: set<ChunkGroup>)
    returns (queue': seq<ChunkGroup>, chunks': set<Chunk>)
    requires InitialSnapshot(G, m, lists) && i < |queue|
    requires Worklist(m, from, queue, i) && chunks == ChunksIn(lists, QueueSet(queue[..i]))
    ensures i + 1 <= |queue'| && Worklist(m, from, queue', i + 1)
    ensures chunks' == ChunksIn(lists, QueueSet(queue'[..i + 1]))
    ensures queue' == queue || G - QueueSet(queue') < G - QueueSet(queue)
  {
    WorklistHas(m, from, queue, i);
    var group := queue[i];
    chunks', queue' := chunks, queue;
    if group.IsInitial() {
      chunks' := chunks + (set c | c in group.chunks);
      queue' := AddAll(queue, group.children);
    }
    TakeNext(G, m, from, queue, queue', i);
    ChunksInNext(lists, queue, queue', i);
  }

  // ---------- asynchronous groups ----------

  ghost function Entries(G: set<ChunkGroup>): set<ChunkGroup> {
    set g | g in G && g.isEntrypoint
  }

  /** The groups at the end of a path from the start with a non-entry after its first group. */
  ghost function AsyncGroups(m: Graph<ChunkGroup>, e: set<ChunkGroup>, start: set<ChunkGroup>): set<ChunkGroup> {
    set x | x in m && exists p :: LeavingPath(m, e, start, p, x)
  }

  /** The groups an entry-only walk steps out to. */
  ghost function Leaving(m: Graph<ChunkGroup>, e: set<ChunkGroup>, start: set<ChunkGroup>): set<ChunkGroup> {
    set x | x in m && Leaves(m, e, start, x)
  }

  lemma AsyncGroupsReached(G: set<ChunkGroup>, m: Graph<ChunkGroup>, lists: map<ChunkGroup, seq<Chunk>>,
                           e: set<ChunkGroup>, start: set<ChunkGroup>)
    requires Snapshot(G, m, lists)
    ensures Reached(m, Leaving(m, e, start)) == AsyncGroups(m, e, start)
  {
    var left := Leaving(m, e, start);
    assert forall g :: g in m ==> m[g] <= m.Keys;
    assert forall y: ChunkGroup :: y in left <==> Leaves(m, e, start, y);
    hide Snapshot, Leaves, From, LeavingPath, Leaving;
    forall x | x in m ensures From(m, left, x) <==> exists p :: LeavingPath(m, e, start, p, x) {
      if From(m, left, x) {
        var p := ReachedIsLeaving(m, e, start, left, x);
      }
      if p :| LeavingPath(m, e, start, p, x) {
        LeavingIsReached(m, e, start, left, p, x);
      }
    }
  }

  ghost function ChildrenOf(m: Graph<ChunkGroup>, start: set<ChunkGroup>): set<ChunkGroup> {
    set g, x | g in start && g in m && x in m[g] :: x
  }

  lemma ChildrenOfMore(m: Graph<ChunkGroup>, some: set<ChunkGroup>, g: ChunkGroup)
    requires g in m
    ensures ChildrenOf(m, some + {g}) == ChildrenOf(m, some) + m[g]
  {
  }

  method QueueChildren(groups: set<ChunkGroup>, ghost G: set<ChunkGroup>) returns (queue: seq<ChunkGroup>)
    requires groups <= G && ChildrenInside(G)
    ensures forall x: ChunkGroup :: x in queue <==> x in ChildrenOf(ChildMap(G), groups)
  {
    ghost var m := ChildMap(G);
    queue := [];
    var todo := groups;
    while todo != {}
      invariant todo <= groups
      invariant forall x: ChunkGroup :: x in queue <==> x in ChildrenOf(m, groups - todo)
    {
      var chunkGroup :| chunkGroup in todo;
      queue := AddAll(queue, chunkGroup.children);
      assert m[chunkGroup] == chunkGroup.children;
      ChildrenOfMore(m, groups - todo, chunkGroup);
      assert groups - (todo - {chunkGroup}) == (groups - todo) + {chunkGroup};
      todo := todo - {chunkGroup};
    }
    assert groups - todo == groups;
  }

  /** The groups already behind the first i groups of the initial queue. */
  ghost predicate Behind(m: Graph<ChunkGroup>, e: set<ChunkGroup>, initialQueue: seq<ChunkGroup>, i: nat,
                         queue: seq<ChunkGroup>)
    requires i <= |initialQueue|
  {
    && (forall x :: x in queue ==> exists j :: 0 <= j < i && initialQueue[j] in m && x in m[initialQueue[j]] && x !in e)
    && (forall j, x :: 0 <= j < i && initialQueue[j] in m && x in m[initialQueue[j]] && x !in e ==> x in queue)
  }

  method QueueBehindEntries(groups: set<ChunkGroup>, ghost G: set<ChunkGroup>) returns (queue: seq<ChunkGroup>)
    requires groups <= G && ChildrenInside(G)
    ensures forall x: ChunkGroup :: x in queue <==> Leaves(ChildMap(G), Entries(G), groups, x)
  {
    ghost var m, e := ChildMap(G), Entries(G);
    var initialQueue := QueueOf(groups);
    WorklistStart(Into(m, e), groups, initialQueue);
    assert EntrySnapshot(G, m, Into(m, e), e);
    hide *;
    queue := WalkEntries(initialQueue, G, m, e, groups);
  }

  method WalkEntries(start: seq<ChunkGroup>, ghost G: set<ChunkGroup>, ghost m: Graph<ChunkGroup>,
                     ghost e: set<ChunkGroup>, ghost from: set<ChunkGroup>)
    returns (queue: seq<ChunkGroup>)
    requires EntrySnapshot(G, m, Into(m, e), e) && Worklist(Into(m, e), from, start, 0)
    ensures forall x: ChunkGroup :: x in queue <==> Leaves(m, e, from, x)
  {
    var initialQueue := start;
    queue := [];
    var i := 0;
    assert Behind(m, e, initialQueue, 0, queue);
    hide *;
    while i < |initialQueue|
      invariant 0 <= i <= |initialQueue| && EntrySnapshot(G, m, Into(m, e), e)
      invariant Worklist(Into(m, e), from, initialQueue, i) && Behind(m, e, initialQueue, i, queue)
      decreases G - QueueSet(initialQueue), |initialQueue| - i
    {
      initialQueue, queue := TakeEntry(initialQueue, i, queue, G, m, Into(m, e), e, from);
      i := i + 1;
    }
    WorklistDone(Into(m, e), from, initialQueue);
    BehindAll(G, m, e, from, initialQueue, queue);
  }

  ghost predicate EntrySnapshot(G: set<ChunkGroup>, m: Graph<ChunkGroup>, k: Graph<ChunkGroup>, e: set<ChunkGroup>)
    reads G
  {
    && m.Keys == G && k.Keys == G
    && (forall g :: g in G ==> m[g] == g.children && g.children <= G && k[g] == g.children * e)
    && (forall g :: g in G ==> (g in e <==> g.isEntrypoint))
  }

  method TakeEntry(initialQueue: seq<ChunkGroup>, i: nat, queue: seq<ChunkGroup>, ghost G: set<ChunkGroup>,
                   ghost m: Graph<ChunkGroup>, ghost k: Graph<ChunkGroup>, ghost e: set<ChunkGroup>,
                   ghost from: set<ChunkGroup>)
    returns (initialQueue': seq<ChunkGroup>, queue': seq<ChunkGroup>)
    requires EntrySnapshot(G, m, k, e) && i < |initialQueue|
    requires Worklist(k, from, initialQueue, i) && Behind(m, e, initialQueue, i, queue)
    ensures i + 1 <= |initialQueue'| && Worklist(k, from, initialQueue', i + 1)
    ensures Behind(m, e, initialQueue', i + 1, queue')
    ensures initialQueue' == initialQueue || G - QueueSet(initialQueue') < G - QueueSet(initialQueue)
  {
    WorklistHas(k, from, initialQueue, i);
    var chunkGroup := initialQueue[i];
    initialQueue' := AddAll(initialQueue, set child | child in chunkGroup.children && child.isEntrypoint);
    queue' := AddAll(queue, set child | child in chunkGroup.children && !child.isEntrypoint);
    TakeNext(G, k, from, initialQueue, initialQueue', i);
    BehindNext(m, e, initialQueue, i, queue, initialQueue', queue');
  }

  lemma BehindNext(m: Graph<ChunkGroup>, e: set<ChunkGroup>, initialQueue: seq<ChunkGroup>, i: nat,
                   queue: seq<ChunkGroup>,
                   initialQueue': seq<ChunkGroup>, queue': seq<ChunkGroup>)
    requires i < |initialQueue| && initialQueue <= initialQueue' && Behind(m, e, initialQueue, i, queue)
    requires initialQueue[i] in m
    requires forall x: ChunkGroup :: x in queue' <==> x in queue || (x in m[initialQueue[i]] && x !in e)
    ensures Behind(m, e, initialQueue', i + 1, queue')
  {
    assert forall j :: 0 <= j <= i ==> initialQueue'[j] == initialQueue[j];
    forall x | x in queue'
      ensures exists j :: 0 <= j < i + 1 && initialQueue'[j] in m && x in m[initialQueue'[j]] && x !in e
    {
      if x in queue {
        var j :| 0 <= j < i && initialQueue[j] in m && x in m[initialQueue[j]] && x !in e;
        assert initialQueue'[j] == initialQueue[j];
      } else {
        assert initialQueue'[i] == initialQueue[i];
      }
    }
  }

  lemma BehindAll(G: set<ChunkGroup>, m: Graph<ChunkGroup>, e: set<ChunkGroup>, start: set<ChunkGroup>,
                  initialQueue: seq<ChunkGroup>, queue: seq<ChunkGroup>)
    requires EntrySnapshot(G, m, Into(m, e), e)
    requires (set x | x in initialQueue) == Reached(Into(m, e), start)
    requires Behind(m, e, initialQueue, |initialQueue|, queue)
    ensures forall x: ChunkGroup :: x in queue <==> Leaves(m, e, start, x)
  {
    assert forall g: ChunkGroup :: g in initialQueue <==> g in Reached(Into(m, e), start);
    forall x: ChunkGroup ensures x in queue <==> Leaves(m, e, start, x) {
      if Leaves(m, e, start, x) {
        var g :| g in m && From(Into(m, e), start, g) && x in m[g];
        assert g in initialQueue;
        var j :| 0 <= j < |initialQueue| && initialQueue[j] == g;
      }
      if x in queue {
        var j :| 0 <= j < |initialQueue| && initialQueue[j] in m && x in m[initialQueue[j]] && x !in e;
        assert initialQueue[j] in initialQueue;
      }
    }
  }

  lemma QueueSetWhole(queue: seq<ChunkGroup>)
    ensures queue[..|queue|] == queue && QueueSet(queue) == set g | g in queue
  {
  }

  lemma WorklistHas(m: Graph<ChunkGroup>, start: set<ChunkGroup>, queue: seq<ChunkGroup>, i: nat)
    requires Worklist(m, start, queue, i) && i < |queue|
    ensures queue[i] in m && (forall g :: g in queue ==> g in m)
  {
    assert queue[i] in queue;
  }

  ghost function ChunkMap(G: set<ChunkGroup>): map<ChunkGroup, seq<Chunk>>
    reads G
  {
    map g | g in G :: g.chunks
  }

  /** The chunks of the groups in s. */
  ghost function ChunksIn(lists: map<ChunkGroup, seq<Chunk>>, s: set<ChunkGroup>): set<Chunk> {
    set g, c | g in s && g in lists && c in lists[g] :: c
  }

  lemma ChunksInNext(lists: map<ChunkGroup, seq<Chunk>>, before: seq<ChunkGroup>, queue: seq<ChunkGroup>, i: nat)
    requires i < |before| && before <= queue && before[i] in lists
    ensures ChunksIn(lists, QueueSet(queue[..i + 1])) ==
              ChunksIn(lists, QueueSet(before[..i])) + (set c | c in lists[before[i]])
  {
    assert queue[..i + 1] == before[..i] + [before[i]];
    assert QueueSet(queue[..i + 1]) == QueueSet(before[..i]) + {before[i]};
    hide QueueSet;
  }

  /** One round of a worklist loop over the graph m. */
  lemma TakeNext(G: set<ChunkGroup>, m: Graph<ChunkGroup>, start: set<ChunkGroup>, before: seq<ChunkGroup>,
                 queue: seq<ChunkGroup>, i: nat)
    requires Worklist(m, start, before, i) && i < |before| && before <= queue && m.Keys == G
    requires before[i] in m && m[before[i]] <= G
    requires forall g: ChunkGroup :: g in queue <==> g in before || g in m[before[i]]
    requires queue != before ==> exists g :: g in queue && g !in before
    ensures Worklist(m, start, queue, i + 1)
    ensures queue == before || G - QueueSet(queue) < G - QueueSet(before)
  {
    WorklistStep(m, start, before, i, queue);
    WorklistHas(m, start, before, i);
    hide Worklist, QueueSet;
    assert forall g :: g in queue ==> g in G;
    QueueGrows(G, before, queue);
  }

  // ---------- queues ----------

  ghost predicate ChildrenInside(G: set<ChunkGroup>)
    reads G
  {
    forall g :: g in G ==> g.children <= G
  }

  /** The chunks that all of the given groups have. */
  ghost function CommonIn(lists: map<ChunkGroup, seq<Chunk>>, groups: set<ChunkGroup>): set<Chunk> {
    set c | c in ChunksIn(lists, groups) && forall g :: g in groups && g in lists ==> c in lists[g]
  }

  lemma CommonOfSets(lists: map<ChunkGroup, seq<Chunk>>, groups: set<ChunkGroup>, order: seq<ChunkGroup>,
                     sets: seq<set<Chunk>>, common: set<Chunk>)
    requires forall g: ChunkGroup :: g in order <==> g in groups
    requires groups <= lists.Keys && |sets| == |order|
    requires forall j :: 0 <= j < |order| ==> order[j] in groups && sets[j] == set c | c in lists[order[j]]
    requires forall c: Chunk :: c in common <==> |sets| > 0 && forall j :: 0 <= j < |sets| ==> c in sets[j]
    ensures common == CommonIn(lists, groups)
  {
    forall c | c in common ensures c in CommonIn(lists, groups) {
      forall g | g in groups ensures c in lists[g] {
        var j :| 0 <= j < |order| && order[j] == g;
        assert c in sets[j];
      }
      assert c in sets[0] && order[0] in groups;
    }
    forall c | c in CommonIn(lists, groups) ensures c in common {
      var g :| g in groups && c in lists[g];
      assert g in order;
      forall j | 0 <= j < |sets| ensures c in sets[j] {
        assert order[j] in groups;
      }
    }
  }

  ghost function QueueSet(queue: seq<ChunkGroup>): set<ChunkGroup> {
    set g | g in queue
  }

  /** new Set(groups): the order is left open. */
  method QueueOf(groups: set<ChunkGroup>) returns (queue: seq<ChunkGroup>)
    ensures forall g: ChunkGroup :: g in queue <==> g in groups
  {
    queue := AddAll([], groups);
  }

  /** queue.add for every group, ignoring those already there. */
  method AddAll(queue: seq<ChunkGroup>, groups: set<ChunkGroup>) returns (more: seq<ChunkGroup>)
    ensures queue <= more
    ensures forall g: ChunkGroup :: g in more <==> g in queue || g in groups
    ensures more != queue ==> exists g :: g in more && g !in queue
  {
    more := queue;
    var todo := groups;
    while todo != {}
      invariant todo <= groups && queue <= more
      invariant forall g: ChunkGroup :: g in more <==> g in queue || g in groups - todo
      invariant more != queue ==> exists g :: g in more && g !in queue
    {
      var g :| g in todo;
      if g !in more {
        more := more + [g];
      }
      todo := todo - {g};
    }
  }

  lemma QueueGrows(G: set<ChunkGroup>, before: seq<ChunkGroup>, after: seq<ChunkGroup>)
    requires before <= after && forall g :: g in after ==> g in G
    requires after != before ==> exists g :: g in after && g !in before
    ensures after == before || G - QueueSet(after) < G - QueueSet(before)
  {
    if g :| g in after && g !in before {
      assert g in G - QueueSet(before) && g !in G - QueueSet(after);
    }
  }

  /** SetHelpers.intersect: start from a smallest set, drop what another set lacks. */
  method Intersect(sets: seq<set<Chunk>>) returns (current: set<Chunk>)
    ensures forall c: Chunk :: c in current <==> |sets| > 0 && forall i :: 0 <= i < |sets| ==> c in sets[i]
  {
    if |sets| == 0 {
      return {};
    }
    if |sets| == 1 {
      return sets[0];
    }
    var minIndex := 0;
    for i := 1 to |sets|
      invariant 0 <= minIndex < i
    {
      if |sets[i]| < |sets[minIndex]| {
        minIndex := i;
      }
    }
    current := sets[minIndex];
    for i := 0 to |sets|
      invariant forall c: Chunk :: c in current <==> c in sets[minIndex] && forall j :: 0 <= j < i ==> c in sets[j]
    {
      if i != minIndex {
        current := set item | item in current && item in sets[i];
      }
    }
  }

  // ---------- chunks and groups naming each other ----------

  ghost predicate Consistent(G: set<ChunkGroup>, C: set<Chunk>)
    reads G, C
  {
    && (forall g :: g in G ==> NoDup(g.chunks))
    && (forall g, c :: g in G && c in C ==> (c in g.chunks <==> g in c.groups))
  }

  lemma SameMembers(before: seq<Chunk>, after: seq<Chunk>, x: Chunk)
    requires Without(after, x) == Without(before, x)
    ensures forall c: Chunk :: c != x ==> (c in after <==> c in before)
  {
    WithoutMembers(before, x);
    WithoutMembers(after, x);
  }

  /** The three ways in which insertChunk comes to put x before y. */
  lemma PutBeforeCases<T>(s: seq<T>, x: T, y: T)
    requires NoDup(s)
    ensures y in s && x !in s ==> PutBefore(s, SpliceIn(s, IndexOf(s, y), x), x, y)
    ensures y in s && x in s && IndexOf(s, x) > IndexOf(s, y) ==>
      PutBefore(s, SpliceIn(SpliceOut(s, IndexOf(s, x)), IndexOf(s, y), x), x, y)
    ensures y in s && x in s && IndexOf(s, x) <= IndexOf(s, y) ==> PutBefore(s, s, x, y)
  {
    hide *;
    if y in s && x !in s {
      PutNew(s, x, IndexOf(s, y));
    } else if y in s && IndexOf(s, x) > IndexOf(s, y) {
      PutMoved(s, IndexOf(s, x), IndexOf(s, y));
    } else if y in s {
      PutKept(s, IndexOf(s, x), IndexOf(s, y));
    }
  }

  lemma PutNew<T>(s: seq<T>, x: T, i: nat)
    requires x !in s && i < |s|
    ensures PutBefore(s, SpliceIn(s, i, x), x, s[i])
  {
    assert PutAt(s, SpliceIn(s, i, x), x, i);
  }

  lemma PutMoved<T>(s: seq<T>, k: nat, i: nat)
    requires NoDup(s) && i < k < |s|
    ensures PutBefore(s, SpliceIn(SpliceOut(s, k), i, s[k]), s[k], s[i])
  {
    var t := SpliceOut(s, k);
    assert t[..i] == s[..i] && t[i..] == s[i..k] + s[k + 1..];
    assert SpliceIn(t, i, s[k]) == s[..i] + [s[k]] + s[i..k] + s[k + 1..];
    assert s[k] !in s[..i + 1];
    assert forall j :: i < j < |s| && s[j] == s[k] ==> j == k;
    assert PutAt(s, SpliceIn(t, i, s[k]), s[k], i);
  }

  lemma PutKept<T>(s: seq<T>, k: nat, i: nat)
    requires NoDup(s) && k <= i < |s|
    ensures PutBefore(s, s, s[k], s[i])
  {
    assert s[..i + 1][k] == s[k];
    assert forall j :: i < j < |s| ==> s[j] != s[k];
    assert PutAt(s, s, s[k], i);
  }

  lemma IndexOfAt<T>(s: seq<T>, i: nat)
    requires NoDup(s) && i < |s|
    ensures IndexOf(s, s[i]) == i
  {
  }

  lemma InsertedBefore<T>(s: seq<T>, x: T, i: nat)
    requires NoDup(s) && x !in s && i < |s|
    ensures var r := SpliceIn(s, i, x);
            && NoDup(r) && Without(r, x) == Without(s, x)
            && x in r && s[i] in r && IndexOf(r, x) == i && IndexOf(r, s[i]) == i + 1
  {
    var r := SpliceIn(s, i, x);
    SpliceInWithout(s, i, x);
    WithoutAbsent(s, x);
    assert r[i] == x && r[i + 1] == s[i];
    IndexOfAt(r, i);
    IndexOfAt(r, i + 1);
  }

  lemma MovedBefore<T>(s: seq<T>, k: nat, i: nat)
    requires NoDup(s) && i < k < |s|
    ensures var r := SpliceIn(SpliceOut(s, k), i, s[k]);
            && NoDup(r) && Without(r, s[k]) == Without(s, s[k])
            && s[k] in r && s[i] in r && IndexOf(r, s[k]) == i && IndexOf(r, s[i]) == i + 1
  {
    var t := SpliceOut(s, k);
    SpliceOutIsWithout(s, k);
    WithoutMembers(s, s[k]);
    WithoutAbsent(t, s[k]);
    assert t[i] == s[i];
    InsertedBefore(t, s[k], i);
  }
}
