// The index array both passes work through: built from the group windows, then sorted by size.
module Candidates {
  import opened Entries
  import opened Sequences
  import opened Sorting
  import opened KeyClasses

  const BATCH_CAPACITY := 32

  function Flatten(gs: seq<Group>): seq<nat> {
    if gs == [] then []
    else Flatten(gs[..|gs| - 1]) + seq(gs[|gs| - 1].count, o requires 0 <= o => gs[|gs| - 1].start + o)
  }

  ghost predicate Covered(gs: seq<Group>, i: nat) {
    exists k :: 0 <= k < |gs| && gs[k].Holds(i)
  }

  lemma {:induction false} FlattenMember(gs: seq<Group>, i: nat)
    ensures i in Flatten(gs) <==> Covered(gs, i)
    ensures |Flatten(gs)| == TotalCount(gs)
  {
    if gs != [] {
      var init, g := gs[..|gs| - 1], gs[|gs| - 1];
      FlattenMember(init, i);
      var tail := seq(g.count, o requires 0 <= o => g.start + o);
      assert g.Holds(i) ==> tail[i - g.start] == i;
      if Covered(gs, i) && !g.Holds(i) {
        var k :| 0 <= k < |gs| && gs[k].Holds(i);
        assert init[k] == gs[k];
      }
      if Covered(init, i) {
        var k :| 0 <= k < |init| && init[k].Holds(i);
        assert gs[k] == init[k];
      }
      if g.Holds(i) {
        assert gs[|gs| - 1].Holds(i);
      }
    }
  }

  lemma {:induction false} FlattenDistinct(gs: seq<Group>)
    requires InOrder(gs)
    ensures Distinct(Flatten(gs))
  {
    if gs != [] {
      var init, g := gs[..|gs| - 1], gs[|gs| - 1];
      FlattenDistinct(init);
      var head := Flatten(init);
      forall p | 0 <= p < |head|
        ensures head[p] < g.start
      {
        FlattenMember(init, head[p]);
        assert head[p] in head;
        var k :| 0 <= k < |init| && init[k].Holds(head[p]);
        assert gs[k].End() <= g.start;
      }
    }
  }

  function SizeAt(s: seq<FileEntry>, i: nat): nat {
    if i < |s| then s[i].size else 0
  }

  function LargerFirst(s: seq<FileEntry>): (nat, nat) -> bool {
    (a: nat, b: nat) => SizeAt(s, a) > SizeAt(s, b)
  }

  /** Every position the groups cover, once each, largest files first. */
  ghost predicate CandidateOrder(s: seq<FileEntry>, gs: seq<Group>, indices: seq<nat>) {
    && |indices| == TotalCount(gs)
    && Distinct(indices)
    && (forall i: nat :: i in indices <==> Covered(gs, i))
    && (forall p, q | 0 <= p < q < |indices| :: SizeAt(s, indices[p]) >= SizeAt(s, indices[q]))
  }

  /** Sorts the index array through the entries it points at. */
  method SortIndicesBySizeDescending(entries: array<FileEntry>, indices: array<nat>)
    modifies indices
    ensures multiset(indices[..]) == multiset(old(indices[..]))
    ensures forall p, q | 0 <= p < q < indices.Length :: SizeAt(entries[..], indices[p]) >= SizeAt(entries[..], indices[q])
  {
    ghost var before := indices[..];
    assert indices[0..indices.Length] == before;
    var less := LargerFirst(entries[..]);
    SortRange(indices, 0, indices.Length, less);
    ghost var after := indices[..];
    assert indices[0..indices.Length] == after;
    forall p, q | 0 <= p < q < indices.Length
      ensures SizeAt(entries[..], indices[p]) >= SizeAt(entries[..], indices[q])
    {
      assert !less(after[q], after[p]);
    }
  }

  method FillIndices(groups: seq<Group>, total: nat) returns (indices: array<nat>)
    requires total == TotalCount(groups)
    ensures fresh(indices) && indices[..] == Flatten(groups)
  {
    indices := new nat[total];
    var cursor := 0;
    FlattenMember(groups, 0);
    for g := 0 to |groups|
      invariant cursor == TotalCount(groups[..g]) <= total
      invariant indices[..cursor] == Flatten(groups[..g])
    {
      var group := groups[g];
      assert groups[..g + 1][..g] == groups[..g];
      PrefixCount(groups, g + 1);
      ghost var done := Flatten(groups[..g]);
      ghost var base := cursor;
      for offset := 0 to group.count
        invariant cursor == base + offset
        invariant indices[..base] == done
        invariant forall p | base <= p < base + offset :: indices[p] == group.start + p - base
      {
        indices[cursor] := group.start + offset;
        cursor := cursor + 1;
      }
      assert indices[..cursor] == done + seq(group.count, o requires 0 <= o => group.start + o);
    }
    assert groups[..|groups|] == groups;
  }

  lemma {:induction false} PrefixCount(gs: seq<Group>, k: nat)
    requires k <= |gs|
    ensures TotalCount(gs[..k]) <= TotalCount(gs)
  {
    if k < |gs| {
      PrefixCount(gs[..|gs| - 1], k);
      assert gs[..|gs| - 1][..k] == gs[..k];
    } else {
      assert gs[..k] == gs;
    }
  }

  /** Flattens the windows and sorts the indices by file size, largest first. */
  method BuildCandidates(entries: array<FileEntry>, groups: seq<Group>) returns (indices: array<nat>)
    requires InOrder(groups)
    ensures fresh(indices)
    ensures CandidateOrder(entries[..], groups, indices[..])
  {
    var total := 0;
    for g := 0 to |groups|
      invariant total == TotalCount(groups[..g])
    {
      assert groups[..g + 1][..g] == groups[..g];
      total := total + groups[g].count;
    }
    assert groups[..|groups|] == groups;
    indices := FillIndices(groups, total);
    SortIndicesBySizeDescending(entries, indices);
    FlattenDistinct(groups);
    DrawnDistinct(Flatten(groups), indices[..]);
    forall i: nat
      ensures i in indices[..] <==> Covered(groups, i)
    {
      FlattenMember(groups, i);
      assert i in indices[..] <==> i in multiset(indices[..]);
      assert i in Flatten(groups) <==> i in multiset(Flatten(groups));
    }
    assert |indices[..]| == |multiset(indices[..])|;
    FlattenMember(groups, 0);
  }

  function BatchCount(total: nat): nat {
    (total + BATCH_CAPACITY - 1) / BATCH_CAPACITY
  }

  function BatchSize(total: nat, batch: nat): nat {
    var start := batch * BATCH_CAPACITY;
    if total <= start then 0 else if total - start < BATCH_CAPACITY then total - start else BATCH_CAPACITY
  }

  predicate InBatch(total: nat, batch: nat, p: nat) {
    batch * BATCH_CAPACITY <= p < batch * BATCH_CAPACITY + BatchSize(total, batch)
  }

  /** The batches partition the positions: each position lies in exactly one of the BatchCount batches, none of which is
      empty or leaves the array. */
  lemma BatchesPartition(total: nat, batch: nat, p: nat)
    ensures InBatch(total, batch, p) <==> p < total && batch == p / BATCH_CAPACITY
    ensures p < total ==> p / BATCH_CAPACITY < BatchCount(total)
    ensures batch < BatchCount(total) <==> 0 < BatchSize(total, batch)
  {
  }
}
