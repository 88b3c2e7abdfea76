/** The interning pool behind `ArcStr`: a reference-counting protocol over one global table.

    Every shared-memory access of `new`, `clone` and `drop` is one step of a state machine, so
    a run is an arbitrary interleaving of the accesses of arbitrarily many threads.  A thread
    holds the pool's lock exactly while its program counter says so. */
module ArcStrPool {
  import opened Wrappers

  type BlockId = nat
  type HandleId = nat
  type ThreadId = nat

  const ISIZE_MAX: nat := 0x7FFF_FFFF_FFFF_FFFF

  /** `ArcStrInner`: the stored hash, the text behind it, and the atomic count. */
  datatype Block = Block(hash: nat, text: string, count: nat)

  /** A live `ArcStr`: the block it points to and (for the specification) the text asked for. */
  datatype Handle = Handle(block: BlockId, text: string)

  /** Where a thread stands inside `new` or `drop`. */
  datatype Pc =
    | Idle
    | Reading(text: string, hit: Option<BlockId>) // read lock held, table searched
    | Missed(text: string)                        // read lock released after a miss
    | Writing(text: string, hit: Option<BlockId>) // write lock held, table searched again
    | Dropping(block: BlockId)                    // took the count to zero, wants the write lock
    | DropLocked(block: BlockId)                  // write lock held, count not yet re-read
    | Freeing(block: BlockId)                     // write lock held, count re-read as zero

  datatype State = State(
    hasher: string -> nat,         // the content hash, arbitrary but fixed
    heap: map<BlockId, Block>,     // blocks allocated now; a freed id may be handed out again
    pool: map<BlockId, nat>,       // table entries and the hash each is filed under
    handles: map<HandleId, Handle>,
    pcs: map<ThreadId, Pc>)

  datatype Action =
    | ReadLookup(thread: ThreadId, text: string)
    | ReadFinish(thread: ThreadId, handle: HandleId)
    | WriteLookup(thread: ThreadId)
    | WriteFinish(thread: ThreadId, handle: HandleId, address: BlockId)
    | CloneHandle(source: HandleId, handle: HandleId)
    | Decrement(thread: ThreadId, handle: HandleId)
    | DropLock(thread: ThreadId)
    | DropCheck(thread: ThreadId)
    | DropFree(thread: ThreadId)

  ghost function Init(hasher: string -> nat): State {
    State(hasher, map[], map[], map[], map[])
  }

  // ----- Locks and look-ups

  function PcOf(s: State, t: ThreadId): Pc {
    if t in s.pcs then s.pcs[t] else Idle
  }

  predicate HoldsWrite(pc: Pc) {
    pc.Writing? || pc.DropLocked? || pc.Freeing?
  }

  predicate HoldsLock(pc: Pc) {
    pc.Reading? || HoldsWrite(pc)
  }

  ghost predicate ReadLockFree(s: State) {
    forall t <- s.pcs :: !HoldsWrite(s.pcs[t])
  }

  ghost predicate WriteLockFree(s: State) {
    forall t <- s.pcs :: !HoldsLock(s.pcs[t])
  }

  /** `Equivalent<ThreadSafePtr> for str`, on an entry filed under the text's hash. */
  ghost predicate Matches(s: State, text: string, b: BlockId) {
    && b in s.pool && s.pool[b] == s.hasher(text)
    && b in s.heap && |s.heap[b].text| == |text| && s.heap[b].text == text
  }

  /** The raw-entry search of `try_find_existing`. */
  ghost function Find(s: State, text: string): Option<BlockId> {
    if exists b :: Matches(s, text, b) then
      var b :| Matches(s, text, b);
      Some(b)
    else None
  }

  // ----- Steps

  ghost function SetPc(s: State, t: ThreadId, pc: Pc): State {
    s.(pcs := s.pcs[t := pc])
  }

  /** `inc_strong` on `b` followed by the creation of handle `h`.  Beyond `isize::MAX` the
      program aborts, so there is no such step. */
  ghost function Grant(s: State, b: BlockId, h: HandleId, text: string): Option<State> {
    if h in s.handles || b !in s.heap || s.heap[b].count > ISIZE_MAX then None
    else
      var block := s.heap[b];
      Some(s.(heap := s.heap[b := block.(count := block.count + 1)],
              handles := s.handles[h := Handle(b, text)]))
  }

  ghost function GrantTo(s: State, t: ThreadId, b: BlockId, h: HandleId, text: string): Option<State> {
    match Grant(s, b, h, text)
    case None => None
    case Some(s') => Some(SetPc(s', t, Idle))
  }

  /** Allocation, initialisation with count 1 and insertion, all under the write lock. */
  ghost function Create(s: State, t: ThreadId, b: BlockId, h: HandleId, text: string): Option<State> {
    if h in s.handles || b in s.heap then None
    else
      var hash := s.hasher(text);
      Some(SetPc(s.(heap := s.heap[b := Block(hash, text, 1)],
                    pool := s.pool[b := hash],
                    handles := s.handles[h := Handle(b, text)]), t, Idle))
  }

  /** `dec_strong`: the handle is gone; whoever takes the count to zero must clean up. */
  ghost function Release(s: State, t: ThreadId, h: HandleId): Option<State> {
    if h !in s.handles || s.handles[h].block !in s.heap then None
    else
      var b := s.handles[h].block;
      var block := s.heap[b];
      if block.count == 0 then None
      else
        Some(SetPc(s.(heap := s.heap[b := block.(count := block.count - 1)],
                      handles := s.handles - {h}),
                   t, if block.count == 1 then Dropping(b) else Idle))
  }

  /** Removal of the entry that is `b` itself and filed under its stored hash, then `dealloc`. */
  ghost function Free(s: State, t: ThreadId, b: BlockId): Option<State> {
    if b !in s.heap then None
    else
      var pool := if b in s.pool && s.pool[b] == s.heap[b].hash then s.pool - {b} else s.pool;
      Some(SetPc(s.(heap := s.heap - {b}, pool := pool), t, Idle))
  }

  /** The state after one step, or None where the step is not enabled. */
  ghost function Apply(s: State, a: Action): Option<State> {
    match a
    case ReadLookup(t, text) =>
      if PcOf(s, t).Idle? && ReadLockFree(s) then Some(SetPc(s, t, Reading(text, Find(s, text))))
      else None
    case ReadFinish(t, h) =>
      (match PcOf(s, t)
       case Reading(text, Some(b)) => GrantTo(s, t, b, h, text)
       case Reading(text, None) => Some(SetPc(s, t, Missed(text)))
       case _ => None)
    case WriteLookup(t) =>
      if PcOf(s, t).Missed? && WriteLockFree(s) then
        var text := PcOf(s, t).text;
        Some(SetPc(s, t, Writing(text, Find(s, text))))
      else None
    case WriteFinish(t, h, address) =>
      (match PcOf(s, t)
       case Writing(text, Some(b)) => GrantTo(s, t, b, h, text)
       case Writing(text, None) => Create(s, t, address, h, text)
       case _ => None)
    case CloneHandle(source, h) =>
      if source in s.handles then Grant(s, s.handles[source].block, h, s.handles[source].text)
      else None
    case Decrement(t, h) =>
      if PcOf(s, t).Idle? then Release(s, t, h) else None
    case DropLock(t) =>
      if PcOf(s, t).Dropping? && WriteLockFree(s) then Some(SetPc(s, t, DropLocked(PcOf(s, t).block)))
      else None
    case DropCheck(t) =>
      (match PcOf(s, t)
       case DropLocked(b) =>
         // a block that another drop has already freed: nothing live is touched
         if b !in s.heap || s.heap[b].count != 0 then Some(SetPc(s, t, Idle))
         else Some(SetPc(s, t, Freeing(b)))
       case _ => None)
    case DropFree(t) =>
      (match PcOf(s, t)
       case Freeing(b) => Free(s, t, b)
       case _ => None)
  }

  /** The state after a whole run of steps, each enabled where it is taken. */
  ghost function Exec(s: State, run: seq<Action>): Option<State>
    decreases |run|
  {
    if run == [] then Some(s)
    else match Apply(s, run[0])
      case None => None
      case Some(s') => Exec(s', run[1..])
  }

  ghost predicate Reachable(s: State) {
    exists run :: Exec(Init(s.hasher), run) == Some(s)
  }

  // ----- The inductive invariant

  ghost function HandlesOf(handles: map<HandleId, Handle>, b: BlockId): set<HandleId> {
    set h | h in handles && handles[h].block == b
  }

  predicate WaitsOn(pc: Pc, b: BlockId) {
    (pc.Dropping? || pc.DropLocked? || pc.Freeing?) && pc.block == b
  }

  ghost predicate HasDropWaiting(pcs: map<ThreadId, Pc>, b: BlockId) {
    exists t :: t in pcs && WaitsOn(pcs[t], b)
  }

  /** The table lists exactly the allocated blocks, each filed under its text's hash. */
  ghost predicate FiledOk(hasher: string -> nat, heap: map<BlockId, Block>, pool: map<BlockId, nat>) {
    && pool.Keys == heap.Keys
    && forall b <- heap :: pool[b] == heap[b].hash == hasher(heap[b].text)
  }

  ghost predicate TextsDistinct(heap: map<BlockId, Block>) {
    forall b, c :: b in heap && c in heap && heap[b].text == heap[c].text ==> b == c
  }

  /** Every live handle points to an allocated block that holds the text asked for. */
  ghost predicate HandlesOk(heap: map<BlockId, Block>, handles: map<HandleId, Handle>) {
    forall h <- handles :: handles[h].block in heap && heap[handles[h].block].text == handles[h].text
  }

  ghost predicate CountsOk(heap: map<BlockId, Block>, handles: map<HandleId, Handle>) {
    forall b <- heap :: heap[b].count == |HandlesOf(handles, b)| && heap[b].count <= ISIZE_MAX + 1
  }

  ghost predicate ZeroOk(heap: map<BlockId, Block>, pcs: map<ThreadId, Pc>) {
    forall b <- heap :: heap[b].count == 0 ==> HasDropWaiting(pcs, b)
  }

  /** Mutual exclusion: a writer is alone. */
  ghost predicate LockOk(pcs: map<ThreadId, Pc>) {
    forall t, u :: t in pcs && u in pcs && t != u && HoldsWrite(pcs[t]) ==> !HoldsLock(pcs[u])
  }

  ghost predicate HitOk(heap: map<BlockId, Block>, text: string, hit: Option<BlockId>) {
    match hit
    case Some(b) => b in heap && heap[b].text == text
    case None => forall b <- heap :: heap[b].text != text
  }

  /** What a thread has seen under the lock is still true. */
  ghost predicate PcOk(heap: map<BlockId, Block>, pc: Pc) {
    match pc
    case Reading(text, hit) => HitOk(heap, text, hit)
    case Writing(text, hit) => HitOk(heap, text, hit)
    case Freeing(b) => b in heap && heap[b].count == 0
    case _ => true
  }

  ghost predicate PcsOk(heap: map<BlockId, Block>, pcs: map<ThreadId, Pc>) {
    forall t <- pcs :: PcOk(heap, pcs[t])
  }

  ghost predicate DataOk(s: State) {
    && FiledOk(s.hasher, s.heap, s.pool)
    && TextsDistinct(s.heap)
    && HandlesOk(s.heap, s.handles)
    && CountsOk(s.heap, s.handles)
  }

  ghost predicate ControlOk(s: State) {
    && ZeroOk(s.heap, s.pcs)
    && LockOk(s.pcs)
    && PcsOk(s.heap, s.pcs)
  }

  ghost predicate Inv(s: State) {
    DataOk(s) && ControlOk(s)
  }

  // ----- Each step keeps the invariant

  lemma FindIsExact(s: State, text: string)
    requires FiledOk(s.hasher, s.heap, s.pool)
    ensures HitOk(s.heap, text, Find(s, text))
  {
    if Find(s, text) == None {
      forall b | b in s.heap ensures s.heap[b].text != text {
        assert !Matches(s, text, b);
      }
    }
  }

  /** A step of thread `t` that does not stop waiting on a zero block keeps `ZeroOk`. */
  lemma PcMoveKeepsZeroOk(heap: map<BlockId, Block>, pcs: map<ThreadId, Pc>, t: ThreadId, pc: Pc)
    requires ZeroOk(heap, pcs)
    requires forall b <- heap :: heap[b].count == 0 && t in pcs && WaitsOn(pcs[t], b) ==> WaitsOn(pc, b)
    ensures ZeroOk(heap, pcs[t := pc])
  {
    var pcs' := pcs[t := pc];
    forall b | b in heap && heap[b].count == 0 ensures HasDropWaiting(pcs', b) {
      var u :| u in pcs && WaitsOn(pcs[u], b);
      assert u in pcs' && WaitsOn(pcs'[u], b);
    }
  }

  lemma SetPcKeepsInv(s: State, t: ThreadId, pc: Pc)
    requires Inv(s) && PcOk(s.heap, pc)
    requires HoldsWrite(pc) ==> HoldsWrite(PcOf(s, t)) || WriteLockFree(s)
    requires pc.Reading? ==> ReadLockFree(s)
    requires forall b <- s.heap :: s.heap[b].count == 0 && WaitsOn(PcOf(s, t), b) ==> WaitsOn(pc, b)
    ensures Inv(SetPc(s, t, pc))
  {
    assert DataOk(SetPc(s, t, pc));
    assert ControlOk(SetPc(s, t, pc)) by {
      PcMoveKeepsZeroOk(s.heap, s.pcs, t, pc);
    }
  }

  lemma NewHandleKeepsCounts(heap: map<BlockId, Block>, handles: map<HandleId, Handle>,
                             h: HandleId, handle: Handle, block: Block)
    requires CountsOk(heap, handles) && h !in handles
    requires block.count <= ISIZE_MAX + 1 && block.count == |HandlesOf(handles, handle.block)| + 1
    ensures CountsOk(heap[handle.block := block], handles[h := handle])
  {
    var heap', handles' := heap[handle.block := block], handles[h := handle];
    forall c | c in heap'
      ensures heap'[c].count == |HandlesOf(handles', c)| && heap'[c].count <= ISIZE_MAX + 1
    {
      if c == handle.block {
        assert HandlesOf(handles', c) == HandlesOf(handles, c) + {h};
      } else {
        assert HandlesOf(handles', c) == HandlesOf(handles, c);
      }
    }
  }

  predicate SameButCount(block: Block, block': Block) {
    block'.hash == block.hash && block'.text == block.text
  }

  /** Changing only the count of a block keeps the table and every handle's text. */
  lemma CountChangeKeepsTexts(hasher: string -> nat, heap: map<BlockId, Block>, pool: map<BlockId, nat>,
                              b: BlockId, block: Block)
    requires b in heap && SameButCount(heap[b], block)
    requires FiledOk(hasher, heap, pool) && TextsDistinct(heap)
    ensures FiledOk(hasher, heap[b := block], pool) && TextsDistinct(heap[b := block])
  {
  }

  lemma GrantKeepsData(s: State, b: BlockId, h: HandleId, text: string, s': State)
    requires DataOk(s) && Grant(s, b, h, text) == Some(s') && s.heap[b].text == text
    ensures DataOk(s')
  {
    var block := s.heap[b].(count := s.heap[b].count + 1);
    NewHandleKeepsCounts(s.heap, s.handles, h, Handle(b, text), block);
    CountChangeKeepsTexts(s.hasher, s.heap, s.pool, b, block);
  }

  lemma GrantKeepsControl(s: State, b: BlockId, h: HandleId, text: string, s': State)
    requires ControlOk(s) && Grant(s, b, h, text) == Some(s')
    requires forall t <- s.pcs :: s.pcs[t] != Freeing(b)
    ensures ControlOk(s')
  {
  }

  /** Under a lock nobody else is about to free, so a hit may be granted. */
  lemma NobodyElseFrees(s: State, t: ThreadId, b: BlockId)
    requires LockOk(s.pcs) && HoldsLock(PcOf(s, t)) && !PcOf(s, t).Freeing?
    ensures forall u <- s.pcs :: s.pcs[u] != Freeing(b)
  {
  }

  lemma GrantHitKeepsInv(s: State, t: ThreadId, b: BlockId, h: HandleId, text: string, s': State)
    requires Inv(s) && Grant(s, b, h, text) == Some(s')
    requires PcOf(s, t) == Reading(text, Some(b)) || PcOf(s, t) == Writing(text, Some(b))
    ensures Inv(s')
  {
    assert PcOk(s.heap, s.pcs[t]);
    NobodyElseFrees(s, t, b);
    GrantKeepsData(s, b, h, text, s');
    GrantKeepsControl(s, b, h, text, s');
  }

  lemma GrantToKeepsInv(s: State, t: ThreadId, b: BlockId, h: HandleId, text: string, s': State)
    requires Inv(s) && GrantTo(s, t, b, h, text) == Some(s')
    requires PcOf(s, t) == Reading(text, Some(b)) || PcOf(s, t) == Writing(text, Some(b))
    ensures Inv(s')
  {
    var mid := Grant(s, b, h, text).value;
    GrantHitKeepsInv(s, t, b, h, text, mid);
    LeaveKeepsInv(mid, t);
  }

  /** A thread of `new` releases its lock. */
  lemma LeaveKeepsInv(s: State, t: ThreadId)
    requires Inv(s) && (PcOf(s, t).Reading? || PcOf(s, t).Writing?)
    ensures Inv(SetPc(s, t, Idle))
  {
    SetPcKeepsInv(s, t, Idle);
  }

  lemma CloneKeepsInv(s: State, source: HandleId, h: HandleId, s': State)
    requires Inv(s) && Apply(s, CloneHandle(source, h)) == Some(s')
    ensures Inv(s')
  {
    var b := s.handles[source].block;
    NobodyFrees(s, source);
    GrantKeepsData(s, b, h, s.handles[source].text, s');
    GrantKeepsControl(s, b, h, s.handles[source].text, s');
  }

  lemma CreateKeepsData(s: State, t: ThreadId, b: BlockId, h: HandleId, text: string, s': State)
    requires DataOk(s) && Create(s, t, b, h, text) == Some(s') && HitOk(s.heap, text, None)
    ensures DataOk(s')
  {
    assert HandlesOf(s.handles, b) == {};
    NewHandleKeepsCounts(s.heap, s.handles, h, Handle(b, text), s'.heap[b]);
  }

  lemma CreateKeepsControl(s: State, t: ThreadId, b: BlockId, h: HandleId, text: string, s': State)
    requires ControlOk(s) && Create(s, t, b, h, text) == Some(s') && PcOf(s, t).Writing?
    ensures ControlOk(s')
  {
    assert ZeroOk(s'.heap, s.pcs);
    PcMoveKeepsZeroOk(s'.heap, s.pcs, t, Idle);
  }

  lemma LostHandleKeepsCounts(heap: map<BlockId, Block>, handles: map<HandleId, Handle>, h: HandleId)
    requires CountsOk(heap, handles) && h in handles && handles[h].block in heap
    ensures heap[handles[h].block].count > 0
    ensures var b := handles[h].block;
      CountsOk(heap[b := heap[b].(count := heap[b].count - 1)], handles - {h})
  {
    var b, handles' := handles[h].block, handles - {h};
    assert h in HandlesOf(handles, b);
    var heap' := heap[b := heap[b].(count := heap[b].count - 1)];
    forall c | c in heap'
      ensures heap'[c].count == |HandlesOf(handles', c)| && heap'[c].count <= ISIZE_MAX + 1
    {
      if c == b {
        assert HandlesOf(handles, c) == HandlesOf(handles', c) + {h};
      } else {
        assert HandlesOf(handles', c) == HandlesOf(handles, c);
      }
    }
  }

  lemma ReleaseKeepsZeroOk(heap: map<BlockId, Block>, pcs: map<ThreadId, Pc>, t: ThreadId, b: BlockId, block: Block)
    requires ZeroOk(heap, pcs) && (t in pcs ==> pcs[t].Idle?)
    ensures ZeroOk(heap[b := block], pcs[t := if block.count == 0 then Dropping(b) else Idle])
  {
    var heap', pcs' := heap[b := block], pcs[t := if block.count == 0 then Dropping(b) else Idle];
    forall c | c in heap' && heap'[c].count == 0 ensures HasDropWaiting(pcs', c) {
      if c == b {
        assert t in pcs' && WaitsOn(pcs'[t], c);
      } else {
        var u :| u in pcs && WaitsOn(pcs[u], c);
        assert u in pcs' && WaitsOn(pcs'[u], c);
      }
    }
  }

  lemma NobodyFrees(s: State, h: HandleId)
    requires CountsOk(s.heap, s.handles) && HandlesOk(s.heap, s.handles) && PcsOk(s.heap, s.pcs)
    requires h in s.handles
    ensures forall t <- s.pcs :: s.pcs[t] != Freeing(s.handles[h].block)
  {
    var b := s.handles[h].block;
    assert h in HandlesOf(s.handles, b);
    forall t | t in s.pcs ensures s.pcs[t] != Freeing(b) {
      assert PcOk(s.heap, s.pcs[t]);
    }
  }

  lemma ReleaseKeepsData(s: State, t: ThreadId, h: HandleId, s': State)
    requires DataOk(s) && Release(s, t, h) == Some(s')
    ensures DataOk(s')
  {
    var b := s.handles[h].block;
    LostHandleKeepsCounts(s.heap, s.handles, h);
    CountChangeKeepsTexts(s.hasher, s.heap, s.pool, b, s'.heap[b]);
  }

  lemma ReleaseKeepsControl(s: State, t: ThreadId, h: HandleId, s': State)
    requires ControlOk(s) && Release(s, t, h) == Some(s') && PcOf(s, t).Idle?
    requires forall u <- s.pcs :: s.pcs[u] != Freeing(s.handles[h].block)
    ensures ControlOk(s')
  {
    var b := s.handles[h].block;
    ReleaseKeepsZeroOk(s.heap, s.pcs, t, b, s'.heap[b]);
  }

  lemma FreeKeepsData(s: State, t: ThreadId, b: BlockId, s': State)
    requires DataOk(s) && b in s.heap && s.heap[b].count == 0 && Free(s, t, b) == Some(s')
    ensures DataOk(s')
  {
    assert HandlesOf(s.handles, b) == {};
    forall h | h in s.handles ensures s.handles[h].block != b {
      assert h !in HandlesOf(s.handles, b);
    }
  }

  lemma FreeKeepsControl(s: State, t: ThreadId, b: BlockId, s': State)
    requires ControlOk(s) && PcOf(s, t) == Freeing(b) && Free(s, t, b) == Some(s')
    ensures ControlOk(s')
  {
    PcMoveKeepsZeroOk(s.heap - {b}, s.pcs, t, Idle);
  }

  lemma NewStepKeepsInv(s: State, a: Action, s': State)
    requires Inv(s) && Apply(s, a) == Some(s')
    requires a.ReadLookup? || a.ReadFinish? || a.WriteLookup? || a.WriteFinish?
    ensures Inv(s')
  {
    match a
    case ReadLookup(t, text) =>
      FindIsExact(s, text);
      SetPcKeepsInv(s, t, Reading(text, Find(s, text)));
    case ReadFinish(t, h) =>
      match PcOf(s, t) {
        case Reading(text, Some(b)) => GrantToKeepsInv(s, t, b, h, text, s');
        case Reading(text, None) => SetPcKeepsInv(s, t, Missed(text));
      }
    case WriteLookup(t) =>
      var text := PcOf(s, t).text;
      FindIsExact(s, text);
      SetPcKeepsInv(s, t, Writing(text, Find(s, text)));
    case WriteFinish(t, h, address) =>
      match PcOf(s, t) {
        case Writing(text, Some(b)) => GrantToKeepsInv(s, t, b, h, text, s');
        case Writing(text, None) =>
          assert PcOk(s.heap, s.pcs[t]);
          CreateKeepsData(s, t, address, h, text, s');
          CreateKeepsControl(s, t, address, h, text, s');
      }
  }

  lemma DropStepKeepsInv(s: State, a: Action, s': State)
    requires Inv(s) && Apply(s, a) == Some(s')
    requires a.Decrement? || a.DropLock? || a.DropCheck? || a.DropFree?
    ensures Inv(s')
  {
    match a
    case Decrement(t, h) =>
      NobodyFrees(s, h);
      ReleaseKeepsData(s, t, h, s');
      ReleaseKeepsControl(s, t, h, s');
    case DropLock(t) => SetPcKeepsInv(s, t, DropLocked(PcOf(s, t).block));
    case DropCheck(t) =>
      var b := PcOf(s, t).block;
      if b !in s.heap || s.heap[b].count != 0 {
        SetPcKeepsInv(s, t, Idle);
      } else {
        SetPcKeepsInv(s, t, Freeing(b));
      }
    case DropFree(t) =>
      assert PcOk(s.heap, s.pcs[t]);
      FreeKeepsData(s, t, PcOf(s, t).block, s');
      FreeKeepsControl(s, t, PcOf(s, t).block, s');
  }

  /** Main invariant theorem, one step: every enabled step keeps the invariant. */
  lemma StepKeepsInv(s: State, a: Action, s': State)
    requires Inv(s) && Apply(s, a) == Some(s')
    ensures Inv(s') && s'.hasher == s.hasher
  {
    if a.CloneHandle? {
      CloneKeepsInv(s, a.source, a.handle, s');
    } else if a.Decrement? || a.DropLock? || a.DropCheck? || a.DropFree? {
      DropStepKeepsInv(s, a, s');
    } else {
      NewStepKeepsInv(s, a, s');
    }
  }

  /** Main invariant theorem, whole runs. */
  lemma {:induction false} RunKeepsInv(s: State, run: seq<Action>)
    requires Inv(s)
    ensures Exec(s, run).Some? ==> Inv(Exec(s, run).value) && Exec(s, run).value.hasher == s.hasher
    decreases |run|
  {
    if run != [] && Apply(s, run[0]).Some? {
      var s' := Apply(s, run[0]).value;
      StepKeepsInv(s, run[0], s');
      RunKeepsInv(s', run[1..]);
    }
  }

  lemma ReachableInv(s: State)
    requires Reachable(s)
    ensures Inv(s)
  {
    var run :| Exec(Init(s.hasher), run) == Some(s);
    RunKeepsInv(Init(s.hasher), run);
  }
}
