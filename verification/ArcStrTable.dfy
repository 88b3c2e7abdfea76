/** `ArcStr::new`, `clone` and `drop` as one thread executes them: methods that update the table
    and the blocks in place, each proved to be a run of the protocol's steps. */
module ArcStrTable {
  import opened Wrappers
  import opened ArcStrPool
  import ArcStrSafety

  /** How a search under a lock ends; `Aborted` stands for the abort on a count beyond
      `isize::MAX`. */
  datatype Lookup = Found(block: BlockId) | Missing | Aborted

  /** Some run of the protocol leads from `s` to `s'`. */
  ghost predicate RunsTo(s: State, s': State) {
    exists run :: Exec(s, run) == Some(s')
  }

  /** The block that holds the text has reached the count at which the program aborts. */
  ghost predicate Overfull(heap: map<BlockId, Block>, text: string) {
    exists b <- heap :: heap[b].text == text && heap[b].count > ISIZE_MAX
  }

  class Table {
    const hasher: string -> nat
    var heap: map<BlockId, Block>
    var pool: map<BlockId, nat>
    ghost var handles: map<HandleId, Handle>

    /** The protocol state with this thread, number 0, outside `new` and `drop`. */
    ghost function Model(): State
      reads this
    {
      State(hasher, heap, pool, handles, map[0 := Idle])
    }

    ghost predicate Valid()
      reads this
    {
      Inv(Model())
    }

    constructor (hasher: string -> nat)
      ensures Valid() && this.hasher == hasher && heap == map[] && handles == map[]
    {
      this.hasher := hasher;
      heap, pool, handles := map[], map[], map[];
      new;
      assert PcsOk(heap, map[0 := Idle]);
    }

    /** The raw-entry search: exact, because no text is listed twice. */
    method Search(hash: nat, text: string) returns (hit: Option<BlockId>)
      requires Valid() && hash == hasher(text)
      ensures hit == Find(Model(), text)
      ensures match hit
        case Some(b) => b in heap && heap[b].text == text
        case None => forall b <- heap :: heap[b].text != text
    {
      FindIsExact(Model(), text);
      if b :| b in pool && pool[b] == hash && |heap[b].text| == |text| && heap[b].text == text {
        assert Matches(Model(), text, b);
        hit := Some(b);
      } else {
        assert forall b :: !Matches(Model(), text, b);
        hit := None;
      }
    }

    /** `inc_strong`; false stands for the abort on a count beyond `isize::MAX`. */
    method IncStrong(b: BlockId, ghost h: HandleId) returns (ok: bool)
      requires b in heap && h !in handles
      modifies this
      ensures pool == old(pool) && ok == (old(heap[b].count) <= ISIZE_MAX)
      ensures ok ==> Grant(old(Model()), b, h, old(heap[b].text)) == Some(Model())
      ensures !ok ==> heap == old(heap) && handles == old(handles)
    {
      var block := heap[b];
      ok := block.count <= ISIZE_MAX;
      if ok {
        heap := heap[b := block.(count := block.count + 1)];
        handles := handles[h := Handle(b, block.text)];
      }
    }

    /** The write-lock path: a block with count 1, filed under its hash. */
    method Insert(hash: nat, text: string, ghost h: HandleId, address: BlockId)
      requires hash == hasher(text) && h !in handles && address !in heap
      modifies this
      ensures Create(old(Model()), 0, address, h, text) == Some(Model())
      ensures heap == old(heap)[address := Block(hash, text, 1)]
      ensures handles == old(handles)[h := Handle(address, text)]
    {
      heap := heap[address := Block(hash, text, 1)];
      pool := pool[address := hash];
      handles := handles[h := Handle(address, text)];
      BackToIdle(Model().pcs, Idle, Idle, Idle);
    }

    /** `try_find_existing`: a hit is counted before the lock is released. */
    method TryFindExisting(hash: nat, text: string, ghost h: HandleId) returns (r: Lookup)
      requires Valid() && hash == hasher(text) && h !in handles
      modifies this
      ensures Valid()
      ensures r.Found? ==> Find(old(Model()), text) == Some(r.block)
      ensures r.Found? ==> Grant(old(Model()), r.block, h, text) == Some(Model())
      ensures r.Missing? ==> Find(Model(), text) == None
      ensures r.Missing? <==> forall b <- old(heap) :: old(heap)[b].text != text
      ensures r.Aborted? <==> Overfull(old(heap), text)
      ensures !r.Found? ==> heap == old(heap) && pool == old(pool) && handles == old(handles)
    {
      ghost var s := Model();
      var hit := Search(hash, text);
      if hit.None? {
        return Missing;
      }
      var ok := IncStrong(hit.value, h);
      if !ok {
        return Aborted;
      }
      FastRun(s, text, hit.value, h, Model());
      r := Found(hit.value);
    }

    /** `new`: the block that already holds the text, or a new one at the allocator's address. */
    method New(text: string, ghost h: HandleId, address: BlockId) returns (r: Lookup)
      requires Valid() && h !in handles && address !in heap
      modifies this
      ensures Valid() && !r.Missing?
      ensures r.Found? ==> RunsTo(old(Model()), Model())
      ensures r.Found? ==> handles == old(handles)[h := Handle(r.block, text)]
      ensures r.Found? ==> Find(old(Model()), text) == (if r.block == address then None else Some(r.block))
      ensures r.Found? ==> r.block in heap && heap[r.block].text == text
      ensures r.Aborted? <==> Overfull(old(heap), text)
      ensures r.Aborted? ==> heap == old(heap) && pool == old(pool) && handles == old(handles)
    {
      ghost var s := Model();
      var hash := hasher(text);
      r := TryFindExisting(hash, text, h);
      if r.Missing? {
        // the write lock is free and the second search misses as well
        Insert(hash, text, h, address);
        SlowRun(s, text, address, h, Model());
        r := Found(address);
      } else if r.Found? {
        FastRun(s, text, r.block, h, Model());
      }
    }

    /** `clone`; false stands for the abort. */
    method Clone(ghost source: HandleId, b: BlockId, ghost h: HandleId) returns (ok: bool)
      requires Valid() && source in handles && handles[source].block == b && h !in handles
      modifies this
      ensures Valid()
      ensures ok == (b in old(heap) && old(heap)[b].count <= ISIZE_MAX)
      ensures ok ==> RunsTo(old(Model()), Model())
      ensures ok ==> handles == old(handles)[h := old(handles[source])]
      ensures !ok ==> heap == old(heap) && pool == old(pool) && handles == old(handles)
    {
      ghost var s := Model();
      ok := IncStrong(b, h);
      if ok {
        CloneRun(s, source, h, Model());
      }
    }

    /** `drop`: the last handle takes the entry and the block with it. */
    method Drop(ghost h: HandleId, b: BlockId)
      requires Valid() && h in handles && handles[h].block == b
      modifies this
      ensures Valid() && handles == old(handles) - {h}
      ensures RunsTo(old(Model()), Model())
      ensures (b in heap) == (exists k :: k in handles && handles[k].block == b)
    {
      ghost var s := Model();
      assert h in HandlesOf(handles, b);
      var count := heap[b].count;
      heap := heap[b := heap[b].(count := count - 1)];
      handles := handles - {h};
      if count > 1 {
        SharedDropRun(s, h, Model());
      } else {
        // alone, the count is still zero under the write lock
        if b in pool && pool[b] == heap[b].hash {
          pool := pool - {b};
        }
        heap := heap - {b};
        assert heap == s.heap - {b};
        LastDropRun(s, h, b, Model());
      }
    }
  }

  // ----- The solo runs

  lemma ExecOne(s: State, a: Action, s': State)
    requires Apply(s, a) == Some(s')
    ensures Exec(s, [a]) == Some(s')
  {
  }

  lemma ExecTwo(s: State, a: Action, s1: State, b: Action, s2: State)
    requires Apply(s, a) == Some(s1) && Apply(s1, b) == Some(s2)
    ensures Exec(s, [a, b]) == Some(s2)
  {
    ExecOne(s1, b, s2);
    assert [a, b][1..] == [b];
  }

  /** This thread, alone in the protocol and outside `new` and `drop`. */
  ghost predicate Solo(s: State) {
    s.pcs == map[0 := Idle]
  }

  lemma BackToIdle(pcs: map<ThreadId, Pc>, a: Pc, b: Pc, c: Pc)
    requires pcs == map[0 := Idle]
    ensures pcs[0 := Idle] == pcs[0 := a][0 := Idle] == pcs[0 := a][0 := b][0 := Idle] == pcs
    ensures pcs[0 := a][0 := b][0 := c][0 := Idle] == pcs
  {
  }

  lemma FindIgnoresPcs(s: State, s': State, text: string)
    requires s' == s.(pcs := s'.pcs) && Find(s, text) == None
    ensures Find(s', text) == None
  {
    forall b ensures !Matches(s', text, b) {
      assert !Matches(s, text, b);
    }
  }

  lemma RunKeeps(s: State, run: seq<Action>, s': State)
    requires Inv(s) && Exec(s, run) == Some(s')
    ensures RunsTo(s, s') && Inv(s')
  {
    RunKeepsInv(s, run);
  }

  lemma CloneRun(s: State, source: HandleId, h: HandleId, s': State)
    requires Inv(s) && Apply(s, CloneHandle(source, h)) == Some(s')
    ensures RunsTo(s, s') && Inv(s')
  {
    ExecOne(s, CloneHandle(source, h), s');
    RunKeeps(s, [CloneHandle(source, h)], s');
  }

  lemma FastExec(s: State, text: string, b: BlockId, h: HandleId, s': State) returns (run: seq<Action>)
    requires Solo(s) && Find(s, text) == Some(b) && Grant(s, b, h, text) == Some(s')
    ensures Exec(s, run) == Some(s')
  {
    var s1 := SetPc(s, 0, Reading(text, Some(b)));
    BackToIdle(s.pcs, Reading(text, Some(b)), Idle, Idle);
    ExecTwo(s, ReadLookup(0, text), s1, ReadFinish(0, h), s');
    run := [ReadLookup(0, text), ReadFinish(0, h)];
  }

  lemma FastRun(s: State, text: string, b: BlockId, h: HandleId, s': State)
    requires Inv(s) && Solo(s) && Find(s, text) == Some(b) && Grant(s, b, h, text) == Some(s')
    ensures RunsTo(s, s') && Inv(s')
  {
    var run := FastExec(s, text, b, h, s');
    RunKeeps(s, run, s');
  }

  lemma SlowExec(s: State, text: string, b: BlockId, h: HandleId, s': State) returns (run: seq<Action>)
    requires Solo(s) && Find(s, text) == None && Create(s, 0, b, h, text) == Some(s')
    ensures Exec(s, run) == Some(s')
  {
    var s1 := SetPc(s, 0, Reading(text, None));
    var s2 := SetPc(s1, 0, Missed(text));
    var s3 := SetPc(s2, 0, Writing(text, None));
    FindIgnoresPcs(s, s2, text);
    BackToIdle(s.pcs, Reading(text, None), Missed(text), Writing(text, None));
    ExecTwo(s, ReadLookup(0, text), s1, ReadFinish(0, h), s2);
    ExecTwo(s2, WriteLookup(0), s3, WriteFinish(0, h, b), s');
    run := [ReadLookup(0, text), ReadFinish(0, h)] + [WriteLookup(0), WriteFinish(0, h, b)];
    ArcStrSafety.ExecAppend(s, [ReadLookup(0, text), ReadFinish(0, h)], s2, [WriteLookup(0), WriteFinish(0, h, b)]);
  }

  lemma SlowRun(s: State, text: string, b: BlockId, h: HandleId, s': State)
    requires Inv(s) && Solo(s) && Find(s, text) == None && Create(s, 0, b, h, text) == Some(s')
    ensures RunsTo(s, s') && Inv(s')
  {
    var run := SlowExec(s, text, b, h, s');
    RunKeeps(s, run, s');
  }

  lemma SharedDropRun(s: State, h: HandleId, s': State)
    requires Inv(s) && Solo(s) && h in s.handles && s.handles[h].block in s.heap
    requires s.heap[s.handles[h].block].count > 1
    requires var b := s.handles[h].block;
      s' == s.(heap := s.heap[b := s.heap[b].(count := s.heap[b].count - 1)], handles := s.handles - {h})
    ensures RunsTo(s, s') && Inv(s')
  {
    BackToIdle(s.pcs, Idle, Idle, Idle);
    ExecOne(s, Decrement(0, h), s');
    RunKeeps(s, [Decrement(0, h)], s');
  }

  lemma LockedDropExec(s: State, b: BlockId, mid: State, s': State)
    requires PcOf(s, 0) == DropLocked(b) && b in s.heap && s.heap[b].count == 0
    requires mid == SetPc(s, 0, Freeing(b)) && Free(mid, 0, b) == Some(s')
    ensures Exec(s, [DropCheck(0), DropFree(0)]) == Some(s')
  {
  }

  lemma LastDropExec(s: State, h: HandleId, b: BlockId, s': State) returns (run: seq<Action>)
    requires Solo(s) && h in s.handles && s.handles[h].block == b && b in s.heap && s.heap[b].count == 1
    requires b in s.pool && s.pool[b] == s.heap[b].hash
    requires s' == s.(heap := s.heap - {b}, pool := s.pool - {b}, handles := s.handles - {h})
    ensures Exec(s, run) == Some(s')
  {
    var s1 := Release(s, 0, h).value;
    var s2 := SetPc(s1, 0, DropLocked(b));
    var s3 := SetPc(s2, 0, Freeing(b));
    BackToIdle(s.pcs, Dropping(b), DropLocked(b), Freeing(b));
    assert s3.heap - {b} == s'.heap;
    ExecTwo(s, Decrement(0, h), s1, DropLock(0), s2);
    LockedDropExec(s2, b, s3, s');
    run := [Decrement(0, h), DropLock(0)] + [DropCheck(0), DropFree(0)];
    ArcStrSafety.ExecAppend(s, [Decrement(0, h), DropLock(0)], s2, [DropCheck(0), DropFree(0)]);
  }

  lemma LastDropRun(s: State, h: HandleId, b: BlockId, s': State)
    requires Inv(s) && Solo(s) && h in s.handles && s.handles[h].block == b && b in s.heap && s.heap[b].count == 1
    requires s' == s.(heap := s.heap - {b}, pool := s.pool - {b}, handles := s.handles - {h})
    ensures RunsTo(s, s') && Inv(s')
  {
    var run := LastDropExec(s, h, b, s');
    RunKeeps(s, run, s');
  }
}
