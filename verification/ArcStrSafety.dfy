/** Consequences of the pool's invariant: what the live handles may rely on, when the pool is
    empty, why it never deadlocks, and exactly which steps make two drops wait for one block. */
module ArcStrSafety {
  import opened Wrappers
  import opened ArcStrPool

  // ----- What clients may rely on, in every reachable state

  /** A live handle's block is allocated, listed under its hash, holds the text that was asked
      for, and counts exactly the live handles that point to it. */
  lemma LiveHandleIsSafe(s: State, h: HandleId)
    requires Reachable(s) && h in s.handles
    ensures var b := s.handles[h].block;
      && b in s.heap && b in s.pool && s.pool[b] == s.hasher(s.handles[h].text)
      && s.heap[b].text == s.handles[h].text
      && s.heap[b].count > 0 && s.heap[b].count == |HandlesOf(s.handles, b)|
  {
    ReachableInv(s);
    assert h in HandlesOf(s.handles, s.handles[h].block);
  }

  /** Interning: two live handles share a block exactly when their texts are equal. */
  lemma PointerEqualityIsTextEquality(s: State, h: HandleId, k: HandleId)
    requires Reachable(s) && h in s.handles && k in s.handles
    ensures s.handles[h].block == s.handles[k].block <==> s.handles[h].text == s.handles[k].text
  {
    ReachableInv(s);
  }

  /** Nothing is leaked: with no handle left and no thread inside `new` or `drop`, the table and
      the heap are empty. */
  lemma QuiescentPoolIsEmpty(s: State)
    requires Reachable(s) && s.handles == map[] && forall t <- s.pcs :: s.pcs[t].Idle?
    ensures s.pool == map[] && s.heap == map[]
  {
    ReachableInv(s);
    forall b ensures HandlesOf(s.handles, b) == {} {
    }
    if b :| b in s.heap {
      assert false;
    }
    assert s.heap.Keys == {} && s.pool.Keys == {};
  }

  /** At every moment each table entry without a handle has a drop on its way to it. */
  lemma UnusedEntryIsBeingDropped(s: State, b: BlockId)
    requires Reachable(s) && b in s.pool
    requires forall h <- s.handles :: s.handles[h].block != b
    ensures exists t :: t in s.pcs && WaitsOn(s.pcs[t], b)
  {
    ReachableInv(s);
    assert HandlesOf(s.handles, b) == {};
    assert HasDropWaiting(s.pcs, b);
  }

  // ----- No deadlock

  lemma FreshId(used: set<nat>) returns (id: nat)
    ensures forall k <- used :: k < id
  {
    if used == {} {
      id := 0;
    } else {
      var x :| x in used;
      var rest := FreshId(used - {x});
      id := if rest <= x then x + 1 else rest;
      assert forall k <- used :: k == x || k in used - {x};
    }
  }

  ghost predicate CanMove(s: State, t: ThreadId) {
    exists a: Action :: (a.ReadFinish? || a.WriteLookup? || a.WriteFinish? || a.DropLock? || a.DropCheck? || a.DropFree?)
                && a.thread == t && Apply(s, a).Some?
  }

  lemma LockHolderCanMove(s: State, t: ThreadId)
    requires Inv(s) && t in s.pcs && HoldsLock(s.pcs[t])
    requires forall b <- s.heap :: s.heap[b].count <= ISIZE_MAX
    ensures CanMove(s, t)
  {
    assert PcOk(s.heap, s.pcs[t]);
    var h := FreshId(s.handles.Keys);
    var b := FreshId(s.heap.Keys);
    match s.pcs[t]
    case Reading(_, _) => assert Apply(s, ReadFinish(t, h)).Some?;
    case Writing(_, _) => assert Apply(s, WriteFinish(t, h, b)).Some?;
    case DropLocked(_) => assert Apply(s, DropCheck(t)).Some?;
    case Freeing(_) => assert Apply(s, DropFree(t)).Some?;
  }

  /** While any thread is inside `new` or `drop`, one of them can take its next step (short of
      the abort on a count beyond `isize::MAX`). */
  lemma NoDeadlock(s: State, t: ThreadId)
    requires Reachable(s) && t in s.pcs && !s.pcs[t].Idle?
    requires forall b <- s.heap :: s.heap[b].count <= ISIZE_MAX
    ensures exists u :: u in s.pcs && !s.pcs[u].Idle? && CanMove(s, u)
  {
    ReachableInv(s);
    if u :| u in s.pcs && HoldsLock(s.pcs[u]) {
      LockHolderCanMove(s, u);
    } else if s.pcs[t].Missed? {
      assert Apply(s, WriteLookup(t)).Some?;
      assert CanMove(s, t);
    } else {
      assert Apply(s, DropLock(t)).Some?;
      assert CanMove(s, t);
    }
  }

  // ----- Which accesses need the lock

  /** In every reachable state, whoever holds the lock: a handle can be cloned unless its count is
      at the limit, and dropped; the table can be searched unless a writer is at work. */
  lemma AccessesAreFree(s: State, t: ThreadId, h: HandleId, clone: HandleId, text: string)
    requires Reachable(s) && h in s.handles && clone !in s.handles && PcOf(s, t).Idle?
    ensures s.handles[h].block in s.heap
    ensures Apply(s, CloneHandle(h, clone)).Some? <==> s.heap[s.handles[h].block].count <= ISIZE_MAX
    ensures Apply(s, Decrement(t, h)).Some?
    ensures Apply(s, ReadLookup(t, text)).Some? <==> forall u <- s.pcs :: !HoldsWrite(s.pcs[u])
  {
    LiveHandleIsSafe(s, h);
  }

  // ----- When each block is cleaned up exactly once

  /** A look-up hit that takes a count from zero back to one. */
  ghost predicate Revives(s: State, a: Action) {
    match a
    case ReadFinish(t, _) => PcOf(s, t).Reading? && RevivesHit(s, PcOf(s, t).hit)
    case WriteFinish(t, _, _) => PcOf(s, t).Writing? && RevivesHit(s, PcOf(s, t).hit)
    case _ => false
  }

  ghost predicate RevivesHit(s: State, hit: Option<BlockId>) {
    hit.Some? && hit.value in s.heap && s.heap[hit.value].count == 0
  }

  ghost predicate NoRevival(s: State, run: seq<Action>)
    decreases |run|
  {
    run == [] ||
    (!Revives(s, run[0]) && (Apply(s, run[0]).Some? ==> NoRevival(Apply(s, run[0]).value, run[1..])))
  }

  /** Every waiting drop is the only one for its block, which is allocated with count zero. */
  ghost predicate DropsExclusive(heap: map<BlockId, Block>, pcs: map<ThreadId, Pc>) {
    && (forall t, b :: t in pcs && WaitsOn(pcs[t], b) ==> b in heap && heap[b].count == 0)
    && (forall t, u, b :: t in pcs && u in pcs && WaitsOn(pcs[t], b) && WaitsOn(pcs[u], b) ==> t == u)
  }

  lemma PcMoveKeepsExclusive(heap: map<BlockId, Block>, pcs: map<ThreadId, Pc>, t: ThreadId, pc: Pc)
    requires DropsExclusive(heap, pcs)
    requires forall b :: WaitsOn(pc, b) ==> t in pcs && WaitsOn(pcs[t], b)
    ensures DropsExclusive(heap, pcs[t := pc])
  {
  }

  /** Nobody waits for a block that a live handle points to. */
  lemma NobodyWaits(s: State, h: HandleId)
    requires CountsOk(s.heap, s.handles) && DropsExclusive(s.heap, s.pcs)
    requires h in s.handles
    ensures forall t <- s.pcs :: !WaitsOn(s.pcs[t], s.handles[h].block)
  {
    assert h in HandlesOf(s.handles, s.handles[h].block);
  }

  lemma ReleaseKeepsExclusive(s: State, t: ThreadId, h: HandleId, s': State)
    requires CountsOk(s.heap, s.handles) && DropsExclusive(s.heap, s.pcs)
    requires Release(s, t, h) == Some(s') && PcOf(s, t).Idle?
    ensures DropsExclusive(s'.heap, s'.pcs)
  {
  }

  lemma FreeKeepsExclusive(s: State, t: ThreadId, b: BlockId, s': State)
    requires DropsExclusive(s.heap, s.pcs) && PcOf(s, t) == Freeing(b) && Free(s, t, b) == Some(s')
    ensures DropsExclusive(s'.heap, s'.pcs)
  {
    assert WaitsOn(s.pcs[t], b);
    PcMoveKeepsExclusive(s.heap, s.pcs, t, Idle);
    forall u, c | u in s'.pcs && WaitsOn(s'.pcs[u], c) ensures c != b {
      assert u != t && u in s.pcs && WaitsOn(s.pcs[u], c);
    }
  }

  lemma NewStepKeepsExclusive(s: State, a: Action, s': State)
    requires ControlOk(s) && DropsExclusive(s.heap, s.pcs) && Apply(s, a) == Some(s') && !Revives(s, a)
    requires a.ReadLookup? || a.ReadFinish? || a.WriteLookup? || a.WriteFinish?
    ensures DropsExclusive(s'.heap, s'.pcs)
  {
    PcMoveKeepsExclusive(s'.heap, s.pcs, a.thread, s'.pcs[a.thread]);
  }

  lemma DropStepKeepsExclusive(s: State, a: Action, s': State)
    requires Inv(s) && DropsExclusive(s.heap, s.pcs) && Apply(s, a) == Some(s')
    requires a.Decrement? || a.DropLock? || a.DropCheck? || a.DropFree?
    ensures DropsExclusive(s'.heap, s'.pcs)
  {
    match a
    case Decrement(t, h) => ReleaseKeepsExclusive(s, t, h, s');
    case DropFree(t) => FreeKeepsExclusive(s, t, PcOf(s, t).block, s');
    case DropLock(t) => PcMoveKeepsExclusive(s.heap, s.pcs, t, s'.pcs[t]);
    case DropCheck(t) => PcMoveKeepsExclusive(s.heap, s.pcs, t, s'.pcs[t]);
  }

  lemma StepKeepsDropsExclusive(s: State, a: Action, s': State)
    requires Inv(s) && DropsExclusive(s.heap, s.pcs) && Apply(s, a) == Some(s') && !Revives(s, a)
    ensures DropsExclusive(s'.heap, s'.pcs)
  {
    if a.CloneHandle? {
      NobodyWaits(s, a.source);
    } else if a.Decrement? || a.DropLock? || a.DropCheck? || a.DropFree? {
      DropStepKeepsExclusive(s, a, s');
    } else {
      NewStepKeepsExclusive(s, a, s');
    }
  }

  lemma {:induction false} RunKeepsDropsExclusive(s: State, run: seq<Action>)
    requires Inv(s) && DropsExclusive(s.heap, s.pcs) && NoRevival(s, run)
    ensures Exec(s, run).Some? ==>
      var s' := Exec(s, run).value; DropsExclusive(s'.heap, s'.pcs)
    decreases |run|
  {
    if run != [] && Apply(s, run[0]).Some? {
      var s' := Apply(s, run[0]).value;
      StepKeepsInv(s, run[0], s');
      StepKeepsDropsExclusive(s, run[0], s');
      RunKeepsDropsExclusive(s', run[1..]);
    }
  }

  /** A run without revivals never leaves two drops waiting for one block, nor a drop waiting
      for a block that is gone: each block is cleaned up exactly once. */
  lemma NoRevivalCleansOnce(hasher: string -> nat, run: seq<Action>, s: State, t: ThreadId, u: ThreadId, b: BlockId)
    requires Exec(Init(hasher), run) == Some(s) && NoRevival(Init(hasher), run)
    requires t in s.pcs && WaitsOn(s.pcs[t], b)
    ensures b in s.heap && s.heap[b].count == 0
    ensures u in s.pcs && WaitsOn(s.pcs[u], b) ==> u == t
  {
    RunKeepsDropsExclusive(Init(hasher), run);
  }

  /** A count of zero is taken back up by no step but a look-up hit of `new`. */
  lemma OnlyNewRevives(s: State, a: Action, s': State, b: BlockId)
    requires Inv(s) && Apply(s, a) == Some(s') && b in s.heap && s.heap[b].count == 0
    ensures b in s'.heap && s'.heap[b].count > 0 ==> Revives(s, a)
  {
    if a.CloneHandle? {
      assert a.source in HandlesOf(s.handles, s.handles[a.source].block);
    } else if !a.ReadFinish? && !a.WriteFinish? {
      OthersDoNotCount(s, a, s', b);
    }
  }

  lemma OthersDoNotCount(s: State, a: Action, s': State, b: BlockId)
    requires Apply(s, a) == Some(s') && !a.CloneHandle? && !a.ReadFinish? && !a.WriteFinish? && b in s.heap
    ensures b in s'.heap ==> s'.heap[b].count <= s.heap[b].count
  {
  }

  /** Two drops wait for one block. */
  ghost predicate TwoDrops(pcs: map<ThreadId, Pc>, b: BlockId) {
    exists t, u :: t in pcs && u in pcs && t != u && WaitsOn(pcs[t], b) && WaitsOn(pcs[u], b)
  }

  /** A second drop comes to wait for a block in exactly one way: the count is taken to zero again
      while a drop from before is still waiting. */
  lemma SecondDropExactly(s: State, a: Action, s': State, b: BlockId)
    requires Apply(s, a) == Some(s') && !TwoDrops(s.pcs, b)
    ensures TwoDrops(s'.pcs, b) <==>
      && a.Decrement? && s.handles[a.handle].block == b && s.heap[b].count == 1
      && HasDropWaiting(s.pcs, b)
  {
    if a.Decrement? && s.handles[a.handle].block == b && s.heap[b].count == 1 && HasDropWaiting(s.pcs, b) {
      var u :| u in s.pcs && WaitsOn(s.pcs[u], b);
      assert u != a.thread && u in s'.pcs && WaitsOn(s'.pcs[u], b) && WaitsOn(s'.pcs[a.thread], b);
    } else if TwoDrops(s'.pcs, b) {
      var t, u :| t in s'.pcs && u in s'.pcs && t != u && WaitsOn(s'.pcs[t], b) && WaitsOn(s'.pcs[u], b);
      WaiterStays(s, a, s', t, b);
      WaiterStays(s, a, s', u, b);
      assert false;
    }
  }

  lemma WaiterStays(s: State, a: Action, s': State, t: ThreadId, b: BlockId)
    requires Apply(s, a) == Some(s') && t in s'.pcs && WaitsOn(s'.pcs[t], b)
    ensures (t in s.pcs && WaitsOn(s.pcs[t], b))
         || (a.Decrement? && a.thread == t && s.handles[a.handle].block == b && s.heap[b].count == 1)
  {
  }

  ghost predicate Dangling(s: State) {
    exists t, b :: t in s.pcs && WaitsOn(s.pcs[t], b) && b !in s.heap
  }

  /** Exactly one kind of step makes a drop wait for a freed block: freeing it under a second
      waiting drop. */
  lemma DanglesExactlyOnDoubleDrop(s: State, a: Action, s': State)
    requires !Dangling(s) && Apply(s, a) == Some(s')
    ensures Dangling(s') <==>
      a.DropFree? && exists u :: u in s.pcs && u != a.thread && WaitsOn(s.pcs[u], s.pcs[a.thread].block)
  {
    if a.DropFree? {
      FreeDanglesExactly(s, a.thread, s.pcs[a.thread].block, s');
    } else {
      forall t, c | t in s'.pcs && WaitsOn(s'.pcs[t], c) ensures c in s'.heap {
      }
    }
  }

  lemma FreeDanglesExactly(s: State, t: ThreadId, b: BlockId, s': State)
    requires !Dangling(s) && t in s.pcs && Free(s, t, b) == Some(s')
    ensures Dangling(s') <==> exists u :: u in s.pcs && u != t && WaitsOn(s.pcs[u], b)
  {
    if u :| u in s.pcs && u != t && WaitsOn(s.pcs[u], b) {
      assert u in s'.pcs && WaitsOn(s'.pcs[u], b) && b !in s'.heap;
    } else {
      forall u, c | u in s'.pcs && WaitsOn(s'.pcs[u], c) ensures c in s'.heap {
        assert u in s.pcs && WaitsOn(s.pcs[u], c);
      }
    }
  }

  // ----- A run in which two drops wait for one block

  lemma {:induction false} ExecAppend(s: State, first: seq<Action>, s': State, second: seq<Action>)
    requires Exec(s, first) == Some(s')
    ensures Exec(s, first + second) == Exec(s', second)
    decreases |first|
  {
    if first == [] {
      assert first + second == second;
    } else {
      assert (first + second)[1..] == first[1..] + second;
      ExecAppend(Apply(s, first[0]).value, first[1..], s', second);
    }
  }

  lemma ExecThree(s: State, a: Action, s1: State, b: Action, s2: State, c: Action, s3: State)
    requires Apply(s, a) == Some(s1) && Apply(s1, b) == Some(s2) && Apply(s2, c) == Some(s3)
    ensures Exec(s, [a, b, c]) == Some(s3)
  {
    assert [a, b, c][1..] == [b, c] && [b, c][1..] == [c];
    assert Exec(s3, []) == Some(s3);
    assert Exec(s2, [c]) == Some(s3);
    assert Exec(s1, [b, c]) == Some(s3);
  }

  /** Thread `t` creates a block for `text` in an empty pool and drops its handle again. */
  lemma CreateAndRelease(hasher: string -> nat, text: string) returns (run: seq<Action>, s: State)
    ensures Exec(Init(hasher), run) == Some(s)
    ensures s.hasher == hasher && s.heap == map[0 := Block(hasher(text), text, 0)]
    ensures s.pool == map[0 := hasher(text)] && s.handles == map[] && s.pcs == map[0 := Dropping(0)]
  {
    var s0 := Init(hasher);
    var s1 := SetPc(s0, 0, Reading(text, None));
    var s2 := SetPc(s1, 0, Missed(text));
    var s3 := SetPc(s2, 0, Writing(text, None));
    var s4 := Create(s3, 0, 0, 0, text).value;
    s := Release(s4, 0, 0).value;
    assert Find(s0, text) == None && Find(s2, text) == None;
    ExecThree(s0, ReadLookup(0, text), s1, ReadFinish(0, 0), s2, WriteLookup(0), s3);
    assert Apply(s3, WriteFinish(0, 0, 0)) == Some(s4);
    assert Apply(s4, Decrement(0, 0)) == Some(s);
    var last := [WriteFinish(0, 0, 0), Decrement(0, 0)];
    assert last[1..] == [Decrement(0, 0)] && Exec(s, []) == Some(s);
    assert Exec(s4, [Decrement(0, 0)]) == Some(s);
    run := [ReadLookup(0, text), ReadFinish(0, 0), WriteLookup(0)] + last;
    ExecAppend(s0, [ReadLookup(0, text), ReadFinish(0, 0), WriteLookup(0)], s3, last);
  }

  /** Another thread finds the abandoned block, revives it and drops it again. */
  lemma ReviveAndRelease(s: State, t: ThreadId, u: ThreadId, b: BlockId, h: HandleId)
      returns (run: seq<Action>, s': State)
    requires FiledOk(s.hasher, s.heap, s.pool) && TextsDistinct(s.heap)
    requires b in s.heap && s.heap[b].count == 0 && h !in s.handles
    requires t in s.pcs && s.pcs[t] == Dropping(b) && u != t && PcOf(s, u).Idle? && WriteLockFree(s)
    ensures Exec(s, run) == Some(s')
    ensures b in s'.heap && s'.heap[b].count == 0 && WriteLockFree(s')
    ensures PcOf(s', t) == PcOf(s', u) == Dropping(b)
  {
    var text := s.heap[b].text;
    FindIsExact(s, text);
    assert Find(s, text) == Some(b);
    var s1 := SetPc(s, u, Reading(text, Some(b)));
    var s2 := GrantTo(s1, u, b, h, text).value;
    s' := Release(s2, u, h).value;
    run := [ReadLookup(u, text), ReadFinish(u, h), Decrement(u, h)];
    ExecThree(s, ReadLookup(u, text), s1, ReadFinish(u, h), s2, Decrement(u, h), s');
  }

  /** The first of two waiting drops frees the block under the second. */
  lemma FirstDropFrees(s: State, t: ThreadId, u: ThreadId, b: BlockId) returns (run: seq<Action>, s': State)
    requires b in s.heap && s.heap[b].count == 0 && WriteLockFree(s) && u != t
    requires PcOf(s, t) == PcOf(s, u) == Dropping(b)
    ensures Exec(s, run) == Some(s') && Dangling(s')
  {
    var s1 := SetPc(s, t, DropLocked(b));
    var s2 := SetPc(s1, t, Freeing(b));
    s' := Free(s2, t, b).value;
    run := [DropLock(t), DropCheck(t), DropFree(t)];
    ExecThree(s, DropLock(t), s1, DropCheck(t), s2, DropFree(t), s');
    assert u in s'.pcs && WaitsOn(s'.pcs[u], b) && b !in s'.heap;
  }

  /** So a block is not always cleaned up exactly once: such a run exists for every hash. */
  lemma DoubleDropRun(hasher: string -> nat)
    ensures exists run, s :: Exec(Init(hasher), run) == Some(s) && Dangling(s)
  {
    var run1, s1 := CreateAndRelease(hasher, "a");
    var run2, s2 := ReviveAndRelease(s1, 0, 1, 0, 1);
    var run3, s3 := FirstDropFrees(s2, 0, 1, 0);
    ExecAppend(s1, run2, s2, run3);
    ExecAppend(Init(hasher), run1, s1, run2 + run3);
    assert Exec(Init(hasher), run1 + (run2 + run3)) == Some(s3);
  }
}
