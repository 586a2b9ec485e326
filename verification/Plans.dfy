/** The planners that move or rebuild the shards of one stripe: the loop bodies of planEC in
    internal/rebalance/rebalance.go and of ComputePlan in internal/repair/repair.go. */
module PlanSpec {
  import opened Lists
  import opened Order
  import opened Nodes
  import opened Metadata

  datatype Move = Move(shard: nat, oldAddr: Addr, newAddr: Addr)

  predicate Placed(c: ChunkRef) { |c.replicas| > 0 }

  /** The addresses that hold a shard of the stripe. */
  function Held(shards: seq<ChunkRef>): (s: set<Addr>) {
    set i | 0 <= i < |shards| && Placed(shards[i]) :: shards[i].replicas[0]
  }

  predicate IsOutside(c: ChunkRef, desired: seq<Addr>) { Placed(c) && c.replicas[0] !in desired }

  /** The first n shards that are not on a desired address. */
  function Outside(shards: seq<ChunkRef>, desired: seq<Addr>, n: nat): (r: seq<nat>)
    requires n <= |shards|
    ensures forall i :: i in r <==> 0 <= i < n && IsOutside(shards[i], desired)
    ensures NoRepeats(r) && forall i, j :: 0 <= i < j < |r| ==> r[i] < r[j]
  {
    if n == 0 then []
    else
      var rest := Outside(shards, desired, n - 1);
      assert forall i :: 0 <= i < |rest| ==> rest[i] in rest;
      if IsOutside(shards[n - 1], desired) then rest + [n - 1] else rest
  }

  /** The elements of a that are not in b, in order. */
  function Without(a: seq<Addr>, b: set<Addr>): (r: seq<Addr>)
    ensures forall x :: x in r <==> x in a && x !in b
    ensures NoRepeats(a) ==> NoRepeats(r)
  {
    if a == [] then []
    else
      var n := |a| - 1;
      assert a == a[..n] + [a[n]];
      if a[n] in b then Without(a[..n], b) else Without(a[..n], b) + [a[n]]
  }

  /** The free desired addresses, sorted. */
  function Unused(desired: seq<Addr>, held: set<Addr>): (r: seq<Addr>) { Sort(Less, Without(desired, held)) }

  lemma UnusedMembers(desired: seq<Addr>, held: set<Addr>)
    ensures forall x :: x in Unused(desired, held) <==> x in desired && x !in held
    ensures NoRepeats(desired) ==> NoRepeats(Unused(desired, held)) && Sorted(Less, Unused(desired, held))
  {
    var w, u := Without(desired, held), Unused(desired, held);
    forall x ensures x in u <==> x in w { SameMembers(u, w, x); }
    if NoRepeats(desired) {
      PermutedNoRepeats(w, u);
      StringsOrdered(w);
      SortSorted(Less, w);
    }
  }

  /** Shards outside the desired set, each with the next free address, as long as there is one. */
  function Moves(shards: seq<ChunkRef>, desired: seq<Addr>, n: nat): (r: seq<Move>)
    requires n <= |shards|
  {
    Paired(shards, Outside(shards, desired, n), Unused(desired, Held(shards)))
  }

  function Paired(shards: seq<ChunkRef>, out: seq<nat>, free: seq<Addr>): (r: seq<Move>)
    ensures |r| == if |out| < |free| then |out| else |free|
    ensures forall j :: 0 <= j < |r| ==> r[j] == Move(out[j], MovedFrom(shards, out[j]), free[j])
  {
    seq(if |out| < |free| then |out| else |free|,
        j requires 0 <= j < |out| && j < |free| => Move(out[j], MovedFrom(shards, out[j]), free[j]))
  }

  function MovedFrom(shards: seq<ChunkRef>, i: nat): (a: Addr) {
    if i < |shards| && Placed(shards[i]) then shards[i].replicas[0] else ""
  }

  // ---- carrying out a plan ----

  /** What the record says once the moves in done have been carried out. */
  ghost predicate IsAfter(shards: seq<ChunkRef>, moves: seq<Move>, done: set<nat>, after: seq<ChunkRef>) {
    && |after| == |shards|
    && (forall j :: j in done && j < |moves| && moves[j].shard < |after| ==>
         after[moves[j].shard].replicas == [moves[j].newAddr])
    && (forall i :: 0 <= i < |shards| && !IsMoved(moves, done, i) ==> after[i] == shards[i])
  }

  ghost predicate IsMoved(moves: seq<Move>, done: set<nat>, i: nat) {
    exists j :: j in done && j < |moves| && moves[j].shard == i
  }

  ghost predicate AllDone(moves: seq<Move>, done: set<nat>) { forall j :: 0 <= j < |moves| ==> j in done }

  /** Every shard has an address and no two share one. */
  ghost predicate Spread(shards: seq<ChunkRef>) {
    && (forall i :: 0 <= i < |shards| ==> Placed(shards[i]))
    && (forall i, j :: 0 <= i < j < |shards| ==> shards[i].replicas[0] != shards[j].replicas[0])
  }
}

module RebalancePlan {
  import opened Lists
  import opened Order
  import opened Nodes
  import opened Metadata
  import opened PlanSpec

  /** setDiff. */
  method SetDiff(a: seq<Addr>, b: set<Addr>) returns (out: seq<Addr>)
    ensures out == Without(a, b)
  {
    out := [];
    for i := 0 to |a|
      invariant out == Without(a[..i], b)
    {
      assert a[..i + 1][..i] == a[..i];
      if a[i] !in b { out := out + [a[i]]; }
    }
    assert a[..|a|] == a;
  }

  method HeldSet(shards: seq<ChunkRef>) returns (s: set<Addr>)
    ensures s == Held(shards)
  {
    s := {};
    for i := 0 to |shards|
      invariant s == Held(shards[..i])
    {
      assert shards[..i + 1] == shards[..i] + [shards[i]];
      HeldMore(shards[..i], shards[i]);
      if |shards[i].replicas| > 0 { s := s + {shards[i].replicas[0]}; }
    }
    assert shards[..|shards|] == shards;
  }

  lemma HeldMore(shards: seq<ChunkRef>, c: ChunkRef)
    ensures Held(shards + [c]) == Held(shards) + if Placed(c) then {c.replicas[0]} else {}
  {
    var more := shards + [c];
    assert forall i :: 0 <= i < |shards| ==> more[i] == shards[i];
    assert Placed(c) ==> more[|shards|].replicas[0] in Held(more);
    forall x | x in Held(shards) ensures x in Held(more) {
      var i :| 0 <= i < |shards| && Placed(shards[i]) && shards[i].replicas[0] == x;
      assert more[i].replicas[0] == x;
    }
  }

  /** Shard i is added to the plan if it is outside and an address is left. */
  lemma MovesStep(shards: seq<ChunkRef>, desired: seq<Addr>, i: nat, free: seq<Addr>)
    requires i < |shards| && free == Unused(desired, Held(shards))
    ensures var m := Moves(shards, desired, i);
      && |m| <= |free|
      && Moves(shards, desired, i + 1) ==
         if IsOutside(shards[i], desired) && |m| < |free| then m + [Move(i, shards[i].replicas[0], free[|m|])] else m
  {
    PairedMore(shards, Outside(shards, desired, i), i, free);
  }

  lemma PairedMore(shards: seq<ChunkRef>, out: seq<nat>, i: nat, free: seq<Addr>)
    ensures var m := Paired(shards, out, free);
      Paired(shards, out + [i], free) == if |m| < |free| then m + [Move(i, MovedFrom(shards, i), free[|m|])] else m
  {
  }

  /** The plan for the first i shards is made, and these addresses are left. */
  ghost predicate PlannedSoFar(shards: seq<ChunkRef>, desired: seq<Addr>, i: nat, out: seq<Move>, free: seq<Addr>) {
    && i <= |shards| && out == Moves(shards, desired, i)
    && |out| <= |Unused(desired, Held(shards))| && free == Unused(desired, Held(shards))[|out|..]
  }

  lemma PlanNext(shards: seq<ChunkRef>, desired: seq<Addr>, i: nat, out: seq<Move>, free: seq<Addr>)
    requires PlannedSoFar(shards, desired, i, out, free) && i < |shards|
    ensures if IsOutside(shards[i], desired) && |free| > 0
      then PlannedSoFar(shards, desired, i + 1, out + [Move(i, shards[i].replicas[0], free[0])], free[1..])
      else PlannedSoFar(shards, desired, i + 1, out, free)
  {
    MovesStep(shards, desired, i, Unused(desired, Held(shards)));
  }

  /** planEC for one stripe. */
  method PlanStripe(shards: seq<ChunkRef>, desired: seq<Addr>) returns (out: seq<Move>)
    ensures out == Moves(shards, desired, |shards|)
  {
    var held := HeldSet(shards);
    var free := SetDiff(desired, held);
    free := Sort(Less, free);
    out := [];
    for i := 0 to |shards|
      invariant PlannedSoFar(shards, desired, i, out, free)
    {
      PlanNext(shards, desired, i, out, free);
      if |shards[i].replicas| == 0 || shards[i].replicas[0] in desired || |free| == 0 {
        continue;
      }
      out := out + [Move(i, shards[i].replicas[0], free[0])];
      free := free[1..];
    }
  }

  // ---- what the plan achieves ----

  /** As many shards are outside the desired set as desired addresses are free. */
  lemma EnoughFree(shards: seq<ChunkRef>, desired: seq<Addr>)
    requires Spread(shards) && NoRepeats(desired) && |desired| == |shards|
    ensures |Outside(shards, desired, |shards|)| == |Unused(desired, Held(shards))|
  {
    var held, want := Held(shards), Elems(desired);
    HeldSize(shards);
    SizeNoRepeats(desired);
    OutsideSize(shards, desired);
    var free := Unused(desired, held);
    UnusedMembers(desired, held);
    SizeNoRepeats(free);
    assert Elems(free) == want - held;
    SameDifference(held, want);
  }

  lemma SameDifference(a: set<Addr>, b: set<Addr>)
    requires |a| == |b|
    ensures |a - b| == |b - a|
  {
  }

  lemma {:induction false} HeldSize(shards: seq<ChunkRef>)
    requires Spread(shards)
    ensures |Held(shards)| == |shards|
  {
    if shards != [] {
      var n := |shards| - 1;
      assert shards == shards[..n] + [shards[n]];
      HeldSize(shards[..n]);
      HeldMore(shards[..n], shards[n]);
      assert shards[n].replicas[0] !in Held(shards[..n]);
    } else {
      assert Held(shards) == {};
    }
  }

  /** The addresses the outside shards are on. */
  function OutsideAddrs(shards: seq<ChunkRef>, desired: seq<Addr>): (r: seq<Addr>) {
    var out := Outside(shards, desired, |shards|);
    seq(|out|, j requires 0 <= j < |out| => MovedFrom(shards, out[j]))
  }

  lemma OutsideAddrsDistinct(shards: seq<ChunkRef>, desired: seq<Addr>)
    requires Spread(shards)
    ensures NoRepeats(OutsideAddrs(shards, desired))
  {
  }

  lemma OutsideAddrsMembers(shards: seq<ChunkRef>, desired: seq<Addr>, x: Addr)
    ensures x in OutsideAddrs(shards, desired) <==> x in Held(shards) - Elems(desired)
  {
    var out, addrs := Outside(shards, desired, |shards|), OutsideAddrs(shards, desired);
    if x in addrs {
      var j :| 0 <= j < |addrs| && addrs[j] == x;
      assert out[j] in out;
    }
    if x in Held(shards) - Elems(desired) {
      var i :| 0 <= i < |shards| && Placed(shards[i]) && shards[i].replicas[0] == x;
      assert i in out;
      var j :| 0 <= j < |out| && out[j] == i;
      assert addrs[j] == x;
    }
  }

  lemma OutsideSize(shards: seq<ChunkRef>, desired: seq<Addr>)
    requires Spread(shards)
    ensures |Outside(shards, desired, |shards|)| == |Held(shards) - Elems(desired)|
  {
    var addrs := OutsideAddrs(shards, desired);
    OutsideAddrsDistinct(shards, desired);
    SizeNoRepeats(addrs);
    forall x ensures x in addrs <==> x in Held(shards) - Elems(desired) { OutsideAddrsMembers(shards, desired, x); }
    assert Elems(addrs) == Held(shards) - Elems(desired);
  }

  /** Only shards outside the desired set move, each to its own free desired address, both in order. */
  lemma MoveFacts(shards: seq<ChunkRef>, desired: seq<Addr>, moves: seq<Move>)
    requires moves == Moves(shards, desired, |shards|) && NoRepeats(desired)
    ensures forall j :: 0 <= j < |moves| ==>
      && moves[j].shard < |shards| && IsOutside(shards[moves[j].shard], desired)
      && moves[j].oldAddr == shards[moves[j].shard].replicas[0]
      && moves[j].newAddr in desired && moves[j].newAddr !in Held(shards)
    ensures forall i, j :: 0 <= i < j < |moves| ==>
      moves[i].shard != moves[j].shard && moves[i].newAddr != moves[j].newAddr
    ensures forall i, j :: 0 <= i < j < |moves| ==>
      moves[i].shard < moves[j].shard && Less(moves[i].newAddr, moves[j].newAddr)
  {
    var out, free := Outside(shards, desired, |shards|), Unused(desired, Held(shards));
    UnusedMembers(desired, Held(shards));
    forall j | 0 <= j < |moves| ensures out[j] in out && free[j] in free {}
  }

  /** Where a shard is after some of the moves: at a move's target, or where it was. */
  lemma Whereabouts(shards: seq<ChunkRef>, desired: seq<Addr>, moves: seq<Move>, done: set<nat>, after: seq<ChunkRef>,
                    i: nat)
    requires moves == Moves(shards, desired, |shards|) && NoRepeats(desired) && i < |shards|
    requires IsAfter(shards, moves, done, after)
    ensures || after[i] == shards[i]
            || exists j :: j in done && j < |moves| && moves[j].shard == i && after[i].replicas == [moves[j].newAddr]
  {
  }

  /** Whichever moves were carried out, no two shards of the stripe end up on one node. */
  lemma StaysSpread(shards: seq<ChunkRef>, desired: seq<Addr>, moves: seq<Move>, done: set<nat>, after: seq<ChunkRef>)
    requires Spread(shards) && NoRepeats(desired) && moves == Moves(shards, desired, |shards|)
    requires IsAfter(shards, moves, done, after)
    ensures Spread(after)
  {
    MoveFacts(shards, desired, moves);
    forall i | 0 <= i < |after| ensures Placed(after[i]) { Whereabouts(shards, desired, moves, done, after, i); }
    forall i, j | 0 <= i < j < |after| ensures after[i].replicas[0] != after[j].replicas[0] {
      StillApart(shards, desired, moves, done, after, i, j);
    }
  }

  lemma StillApart(shards: seq<ChunkRef>, desired: seq<Addr>, moves: seq<Move>, done: set<nat>, after: seq<ChunkRef>,
                   i: nat, j: nat)
    requires Spread(shards) && NoRepeats(desired) && moves == Moves(shards, desired, |shards|)
    requires IsAfter(shards, moves, done, after) && i < j < |after| && Placed(after[i]) && Placed(after[j])
    ensures after[i].replicas[0] != after[j].replicas[0]
  {
    MoveFacts(shards, desired, moves);
    Whereabouts(shards, desired, moves, done, after, i);
    Whereabouts(shards, desired, moves, done, after, j);
    assert shards[i].replicas[0] in Held(shards) && shards[j].replicas[0] in Held(shards);
  }

  /** With all moves carried out the shards occupy exactly the desired addresses, one each, and there
      is nothing left to plan. */
  lemma PlanIsBijection(shards: seq<ChunkRef>, desired: seq<Addr>, moves: seq<Move>, done: set<nat>,
                        after: seq<ChunkRef>)
    requires Spread(shards) && NoRepeats(desired) && |desired| == |shards|
    requires moves == Moves(shards, desired, |shards|)
    requires IsAfter(shards, moves, done, after) && AllDone(moves, done)
    ensures Spread(after) && Held(after) == Elems(desired)
    ensures Moves(after, desired, |after|) == []
    ensures forall i :: 0 <= i < |shards| && shards[i].replicas[0] in desired ==> after[i] == shards[i]
  {
    StaysSpread(shards, desired, moves, done, after);
    MoveFacts(shards, desired, moves);
    forall i | 0 <= i < |after| ensures after[i].replicas[0] in desired {
      AllMoved(shards, desired, moves, done, after, i);
    }
    HeldSize(after);
    SizeNoRepeats(desired);
    assert Held(after) <= Elems(desired);
    SubsetOfSameSize(Held(after), Elems(desired));
    SomeMember(Outside(after, desired, |after|));
  }

  lemma AllMoved(shards: seq<ChunkRef>, desired: seq<Addr>, moves: seq<Move>, done: set<nat>, after: seq<ChunkRef>,
                 i: nat)
    requires Spread(shards) && NoRepeats(desired) && |desired| == |shards| && i < |shards|
    requires moves == Moves(shards, desired, |shards|)
    requires IsAfter(shards, moves, done, after) && AllDone(moves, done)
    ensures Placed(after[i]) && after[i].replicas[0] in desired
  {
    MoveFacts(shards, desired, moves);
    EnoughFree(shards, desired);
    Whereabouts(shards, desired, moves, done, after, i);
    if IsOutside(shards[i], desired) {
      var out := Outside(shards, desired, |shards|);
      assert i in out;
      var j :| 0 <= j < |out| && out[j] == i;
      assert moves[j].shard == i;
    }
  }

  lemma SomeMember(s: seq<nat>)
    ensures s != [] ==> exists i :: i in s
  {
    if s != [] { assert s[0] in s; }
  }

  lemma SubsetOfSameSize(a: set<Addr>, b: set<Addr>)
    requires a <= b && |a| == |b|
    ensures a == b
  {
    assert b == a + (b - a);
  }
}

/** ComputePlan of internal/repair/repair.go for one stripe. */
module RepairPlan {
  import opened Lists
  import opened Order
  import opened Nodes
  import opened Metadata
  import opened PlanSpec
  import opened RepairSpec
  import RebalancePlan

  datatype StripePlan = Healthy | Repairs(rep: StripeRepair) | Unrepairable(rep: StripeRepair) | NoRoom

  predicate Live(c: ChunkRef, live: set<Addr>) { Placed(c) && c.replicas[0] in live }

  /** survivors and dead split the first n shards by whether their node is live. */
  ghost predicate Splits(shards: seq<ChunkRef>, live: set<Addr>, n: nat, survivors: seq<Survivor>, dead: seq<nat>) {
    && n <= |shards| && |survivors| + |dead| == n && (forall i, j :: 0 <= i < j < |dead| ==> dead[i] < dead[j])
    && (forall j :: 0 <= j < |survivors| ==>
         && survivors[j].index < n && Live(shards[survivors[j].index], live)
         && survivors[j].id == shards[survivors[j].index].id
         && survivors[j].addr == shards[survivors[j].index].replicas[0])
    && (forall i, j :: 0 <= i < j < |survivors| ==> survivors[i].index < survivors[j].index)
    && (forall j :: 0 <= j < |dead| ==> dead[j] < n && !Live(shards[dead[j]], live))
    && (forall i :: 0 <= i < n && !Live(shards[i], live) ==> i in dead)
  }

  ghost function AddrsOf(survivors: seq<Survivor>): (s: set<Addr>) { set v | v in survivors :: v.addr }

  lemma SplitNext(shards: seq<ChunkRef>, live: set<Addr>, n: nat, survivors: seq<Survivor>, dead: seq<nat>)
    requires Splits(shards, live, n, survivors, dead) && n < |shards|
    ensures if Live(shards[n], live)
      then Splits(shards, live, n + 1, survivors + [Survivor(n, shards[n].id, shards[n].replicas[0])], dead)
      else Splits(shards, live, n + 1, survivors, dead + [n])
  {
    if !Live(shards[n], live) {
      forall i | 0 <= i < n + 1 && !Live(shards[i], live) ensures i in dead + [n] { assert i < n ==> i in dead; }
    }
  }

  method Split(shards: seq<ChunkRef>, live: set<Addr>)
    returns (survivors: seq<Survivor>, dead: seq<nat>, held: set<Addr>)
    ensures Splits(shards, live, |shards|, survivors, dead) && held == AddrsOf(survivors)
  {
    survivors, dead, held := [], [], {};
    for i := 0 to |shards|
      invariant Splits(shards, live, i, survivors, dead) && held == AddrsOf(survivors)
    {
      SplitNext(shards, live, i, survivors, dead);
      if |shards[i].replicas| == 0 {
        dead := dead + [i];
        continue;
      }
      var addr := shards[i].replicas[0];
      if addr in live {
        var s := Survivor(i, shards[i].id, addr);
        survivors := survivors + [s];
        held := held + {addr};
      } else {
        dead := dead + [i];
      }
    }
  }

  /** Dead shard number j gets the j-th free address, as long as there is one. */
  function Assigned(shards: seq<ChunkRef>, dead: seq<nat>, free: seq<Addr>): (r: seq<DeadShard>)
    requires forall j :: 0 <= j < |dead| ==> dead[j] < |shards|
  {
    seq(if |dead| < |free| then |dead| else |free|, j requires 0 <= j < |dead| && j < |free| =>
      DeadShard(dead[j], shards[dead[j]].id, free[j], false))
  }

  method Assign(shards: seq<ChunkRef>, dead: seq<nat>, unused: seq<Addr>) returns (r: seq<DeadShard>)
    requires forall j :: 0 <= j < |dead| ==> dead[j] < |shards|
    ensures r == Assigned(shards, dead, unused)
  {
    r := [];
    var free := unused;
    var j := 0;
    while j < |dead| && |free| > 0
      invariant j <= |dead| && j <= |unused| && free == unused[j..] && r == Assigned(shards, dead[..j], unused)
    {
      r := r + [DeadShard(dead[j], shards[dead[j]].id, free[0], false)];
      free := free[1..];
      j := j + 1;
    }
    assert dead[..j] == dead || j == |unused|;
  }

  /** Each shard of a dead node, and no other, has its own new address, desired and free of survivors. */
  ghost predicate Reassigns(rep: StripeRepair, shards: seq<ChunkRef>, live: set<Addr>, desired: seq<Addr>) {
    && (forall i :: 0 <= i < |shards| && !Live(shards[i], live) ==>
         exists j :: 0 <= j < |rep.dead| && rep.dead[j].index == i)
    && (forall j :: 0 <= j < |rep.dead| ==>
         && rep.dead[j].index < |shards| && !Live(shards[rep.dead[j].index], live)
         && rep.dead[j].newAddr in desired && rep.dead[j].newAddr !in AddrsOf(rep.survivors))
    && (forall i, j :: 0 <= i < j < |rep.dead| ==> rep.dead[i].newAddr != rep.dead[j].newAddr)
  }

  ghost function IDs(shards: seq<ChunkRef>): (r: seq<ChunkID>) {
    seq(|shards|, i requires 0 <= i < |shards| => shards[i].id)
  }

  lemma {:induction false} HeldCount(survivors: seq<Survivor>)
    ensures |AddrsOf(survivors)| <= |survivors|
  {
    if survivors != [] {
      var n := |survivors| - 1;
      HeldCount(survivors[..n]);
      assert survivors == survivors[..n] + [survivors[n]];
      assert AddrsOf(survivors) == AddrsOf(survivors[..n]) + {survivors[n].addr};
    }
  }

  /** K+M distinct placement addresses leave one for every dead shard. */
  lemma EnoughRoom(shards: seq<ChunkRef>, live: set<Addr>, survivors: seq<Survivor>, dead: seq<nat>, desired: seq<Addr>)
    requires Splits(shards, live, |shards|, survivors, dead) && NoRepeats(desired) && |desired| >= |shards|
    ensures |Unused(desired, AddrsOf(survivors))| >= |dead|
  {
    var held, free := AddrsOf(survivors), Unused(desired, AddrsOf(survivors));
    HeldCount(survivors);
    UnusedMembers(desired, held);
    SizeNoRepeats(desired);
    SizeNoRepeats(free);
    var want := Elems(desired);
    assert Elems(free) == want - held;
    AtLeastDifference(want, held);
  }

  lemma AtLeastDifference(a: set<Addr>, b: set<Addr>)
    ensures |a - b| >= |a| - |b|
  {
  }

  /** The plan for one stripe, given the live nodes and what placement returns for it. */
  method PlanStripeRepair(shards: seq<ChunkRef>, k: int, m: int, live: set<Addr>, desired: seq<Addr>)
    returns (r: StripePlan, ghost dead: seq<nat>)
    ensures r.Healthy? <==> forall i :: 0 <= i < |shards| ==> Live(shards[i], live)
    ensures r.Repairs? || r.Unrepairable? ==>
      r.rep.k == k && r.rep.m == m && Splits(shards, live, |shards|, r.rep.survivors, dead)
    ensures r.Unrepairable? ==> |r.rep.survivors| < k && Lost(r.rep, shards, dead)
    ensures r.Repairs? ==> Replaces(r.rep, shards, dead, desired)
    ensures r.Repairs? ==> |r.rep.survivors| >= k
    ensures NoRepeats(desired) && |desired| >= |shards| ==> !r.NoRoom?
    ensures r.Repairs? && NoRepeats(desired) && |desired| >= |shards| ==> Reassigns(r.rep, shards, live, desired)
    ensures r.Repairs? && 0 < k && 0 < m && k + m <= 256 && |shards| == k + m ==> Matches(r.rep, IDs(shards))
  {
    var survivors, deadIdx, held := Split(shards, live);
    dead := deadIdx;
    if |deadIdx| == 0 {
      return Healthy, dead;
    }
    assert !Live(shards[deadIdx[0]], live);
    if |survivors| < k {
      var lost := seq(|deadIdx|, j requires 0 <= j < |deadIdx| =>
        DeadShard(deadIdx[j], shards[deadIdx[j]].id, "", false));
      return Unrepairable(StripeRepair(k, m, survivors, lost)), dead;
    }
    var unused := RebalancePlan.SetDiff(desired, held);
    unused := Sort(Less, unused);
    var ds := Assign(shards, deadIdx, unused);
    var rep := StripeRepair(k, m, survivors, ds);
    if NoRepeats(desired) && |desired| >= |shards| {
      EnoughRoom(shards, live, survivors, deadIdx, desired);
      PlanReassigns(shards, live, deadIdx, desired, rep);
    }
    if 0 < k && 0 < m && k + m <= 256 && |shards| == k + m { PlanMatches(shards, live, deadIdx, unused, rep); }
    if |ds| > 0 { PlanReplaces(shards, live, deadIdx, desired, rep); }
    r := if |ds| > 0 then Repairs(rep) else NoRoom;
  }

  /** All the dead shards are listed, with no new address. */
  ghost predicate Lost(rep: StripeRepair, shards: seq<ChunkRef>, dead: seq<nat>) {
    |rep.dead| == |dead| && forall j :: 0 <= j < |dead| ==>
      dead[j] < |shards| && rep.dead[j] == DeadShard(dead[j], shards[dead[j]].id, "", false)
  }

  /** As many of the dead shards as there are free addresses, in order, each with a desired address that no
      survivor has, without force; with different desired addresses the new ones ascend. */
  ghost predicate Replaces(rep: StripeRepair, shards: seq<ChunkRef>, dead: seq<nat>, desired: seq<Addr>) {
    && 0 < |rep.dead| <= |dead| && (|rep.dead| == |dead| || NoneLeft(rep, desired))
    && (forall j :: 0 <= j < |rep.dead| ==>
         && dead[j] < |shards| && rep.dead[j].index == dead[j] && rep.dead[j].id == shards[dead[j]].id
         && rep.dead[j].newAddr in desired && rep.dead[j].newAddr !in AddrsOf(rep.survivors) && !rep.dead[j].force)
    && (NoRepeats(desired) ==>
          forall i, j :: 0 <= i < j < |rep.dead| ==> Less(rep.dead[i].newAddr, rep.dead[j].newAddr))
  }

  ghost predicate NoneLeft(rep: StripeRepair, desired: seq<Addr>) {
    forall a <- desired :: a in AddrsOf(rep.survivors) || exists j :: 0 <= j < |rep.dead| && rep.dead[j].newAddr == a
  }

  lemma PlanReplaces(shards: seq<ChunkRef>, live: set<Addr>, dead: seq<nat>, desired: seq<Addr>, rep: StripeRepair)
    requires Splits(shards, live, |shards|, rep.survivors, dead) && |rep.dead| > 0
    requires rep.dead == Assigned(shards, dead, Unused(desired, AddrsOf(rep.survivors)))
    ensures Replaces(rep, shards, dead, desired)
  {
    var free := Unused(desired, AddrsOf(rep.survivors));
    UnusedMembers(desired, AddrsOf(rep.survivors));
    forall j | 0 <= j < |rep.dead| ensures rep.dead[j].newAddr in free { assert free[j] in free; }
    if |rep.dead| < |dead| {
      forall a | a in desired && a !in AddrsOf(rep.survivors)
        ensures exists j :: 0 <= j < |rep.dead| && rep.dead[j].newAddr == a
      {
        assert a in free;
        var j :| 0 <= j < |free| && free[j] == a;
        assert rep.dead[j].newAddr == a;
      }
    }
  }

  lemma PlanReassigns(shards: seq<ChunkRef>, live: set<Addr>, dead: seq<nat>, desired: seq<Addr>, rep: StripeRepair)
    requires Splits(shards, live, |shards|, rep.survivors, dead) && NoRepeats(desired)
    requires rep.dead == Assigned(shards, dead, Unused(desired, AddrsOf(rep.survivors)))
    requires |Unused(desired, AddrsOf(rep.survivors))| >= |dead|
    ensures Reassigns(rep, shards, live, desired)
  {
    var free := Unused(desired, AddrsOf(rep.survivors));
    UnusedMembers(desired, AddrsOf(rep.survivors));
    forall j | 0 <= j < |rep.dead| ensures free[j] in free {}
    forall i | 0 <= i < |shards| && !Live(shards[i], live)
      ensures exists j :: 0 <= j < |rep.dead| && rep.dead[j].index == i
    {
      assert i in dead;
      var j :| 0 <= j < |dead| && dead[j] == i;
      assert rep.dead[j].index == i;
    }
  }

  lemma PlanMatches(shards: seq<ChunkRef>, live: set<Addr>, dead: seq<nat>, free: seq<Addr>, rep: StripeRepair)
    requires Splits(shards, live, |shards|, rep.survivors, dead) && rep.dead == Assigned(shards, dead, free)
    requires 0 < rep.k && 0 < rep.m && rep.k + rep.m <= 256 && |shards| == rep.k + rep.m
    ensures Matches(rep, IDs(shards))
  {
  }
}
