/**
 EncodedS2ShapeIndex decodes cells and shapes when they are first asked for.
 Any number of threads ask at the same time; every access to shared memory is
 one atomic step of a thread.  Minimize deletes what has been decoded.
 */
module LazyDecode {
  import opened Common

  // ----- memory -----

  // Who has to delete an object.
  datatype Owner = ByThread(thread: nat) | ByCell(pos: nat) | ByShape(id: nat)

  datatype ShapeSlot = Undecoded | Decoded(shape: Option<nat>)

  // "cells" starts as uninitialized memory, None.  A group of 64 decoded bits is
  // the set of the offsets of those that are set.
  datatype Memory = Memory(shapes: seq<ShapeSlot>, cells: seq<Option<nat>>, groups: seq<set<nat>>, cache: seq<nat>)

  // The objects that exist have an owner; deleting anything else is a fault.
  datatype Heap = Heap(owner: map<nat, Owner>, fault: bool)

  function Group(pos: nat): nat
  {
    pos / 64
  }

  function Offset(pos: nat): (r: nat)
    ensures r < 64
  {
    pos % 64
  }

  // The position of a bit.
  function Position(group: nat, offset: nat): nat
  {
    group * 64 + offset
  }

  lemma PositionOf(pos: nat)
    ensures Position(Group(pos), Offset(pos)) == pos
  {
  }

  lemma GroupOf(group: nat, offset: nat)
    requires offset < 64
    ensures Group(Position(group, offset)) == group && Offset(Position(group, offset)) == offset
  {
  }

  lemma SameBit(p: nat, q: nat)
    requires Group(p) == Group(q) && Offset(p) == Offset(q)
    ensures p == q
  {
  }

  function NumGroups(numCells: nat): nat
  {
    (numCells + 63) / 64
  }

  lemma GroupExists(pos: nat, numCells: nat)
    requires pos < numCells
    ensures Group(pos) < NumGroups(numCells)
  {
  }

  function MaxCellCacheSize(m: Memory): nat
  {
    |m.cells| / 2048
  }

  predicate CellDecoded(m: Memory, pos: nat)
  {
    Group(pos) < |m.groups| && Offset(pos) in m.groups[Group(pos)]
  }

  function Delete(h: Heap, obj: nat): Heap
  {
    if obj in h.owner then h.(owner := h.owner - {obj}) else h.(fault := true)
  }

  // ----- threads -----

  datatype Key = Cell(pos: nat) | Shape(id: nat)

  // What a thread does next.
  datatype Pc =
    | Idle
    // GetCell
    | CheckCell(pos: nat)
    | ReadCell(pos: nat)
    | DecodeCell(pos: nat)
    | LockCells(pos: nat, obj: nat)
    | Recheck(pos: nat, obj: nat)
    | ReadLocked(pos: nat, obj: nat)
    | UnlockLoser(pos: nat, obj: nat, winner: nat)
    | FreeLoser(pos: nat, obj: nat, winner: nat)
    | WriteCell(pos: nat, obj: nat)
    | LoadGroup(pos: nat, obj: nat)
    | StoreGroup(pos: nat, obj: nat, bits: set<nat>)
    | PushCache(pos: nat, obj: nat)
    | UnlockWinner(pos: nat, obj: nat)
    // shape and GetShape
    | LoadShape(id: nat)
    | MakeShape(id: nat)
    | Exchange(id: nat, shape: Option<nat>)
    | FreeShape(id: nat, obj: nat, expected: Option<nat>)

  // Which cells can be decoded, and for which ids the factory has a shape.
  datatype Data = Data(decodes: seq<bool>, hasShape: seq<bool>)

  // "told" are the answers since the last Minimize; objects are numbered in the
  // order of their creation, and "from" is what each has been decoded from.
  datatype State = State(data: Data, mem: Memory, heap: Heap, lock: Option<nat>, pcs: seq<Pc>, made: nat, from: map<nat, Key>,
                         told: set<(Key, Option<nat>)>)

  predicate Enabled(s: State, t: nat)
    requires t < |s.pcs|
  {
    s.pcs[t].LockCells? ==> s.lock.None?
  }

  function Goto(s: State, t: nat, pc: Pc): State
    requires t < |s.pcs|
  {
    s.(pcs := s.pcs[t := pc])
  }

  function Tell(s: State, t: nat, key: Key, answer: Option<nat>): State
    requires t < |s.pcs|
  {
    s.(pcs := s.pcs[t := Idle], told := s.told + {(key, answer)})
  }

  // A new object of a thread, decoded from the data of a cell or shape.
  function Make(s: State, t: nat, key: Key): State
  {
    s.(heap := s.heap.(owner := s.heap.owner[s.made := ByThread(t)]), from := s.from[s.made := key], made := s.made + 1)
  }

  predicate KeyExists(d: Data, key: Key)
  {
    match key
    case Cell(pos) => pos < |d.decodes|
    case Shape(id) => id < |d.hasShape|
  }

  predicate PcExists(d: Data, pc: Pc)
  {
    match pc
    case Idle => true
    case LoadShape(id) => id < |d.hasShape|
    case MakeShape(id) => id < |d.hasShape|
    case Exchange(id, _) => id < |d.hasShape|
    case FreeShape(id, _, _) => id < |d.hasShape|
    case _ => pc.pos < |d.decodes|
  }

  predicate Sized(d: Data, m: Memory)
  {
    |m.cells| == |d.decodes| && |m.shapes| == |d.hasShape| && |m.groups| == NumGroups(|m.cells|)
  }

  // One step of a thread; an idle one asks for a cell or a shape.
  function Step(s: State, t: nat, key: Key): State
    requires t < |s.pcs| && Sized(s.data, s.mem) && PcExists(s.data, s.pcs[t])
  {
    match s.pcs[t]
    case Idle => Goto(s, t, if key.Cell? then CheckCell(key.pos) else LoadShape(key.id))
    // GetCell
    case CheckCell(pos) => Goto(s, t, if CellDecoded(s.mem, pos) then ReadCell(pos) else DecodeCell(pos))
    case ReadCell(pos) =>
      if s.mem.cells[pos].None? then Goto(s.(heap := s.heap.(fault := true)), t, Idle)
      else Tell(s, t, Cell(pos), s.mem.cells[pos])
    case DecodeCell(pos) =>
      if s.data.decodes[pos] then Goto(Make(s, t, Cell(pos)), t, LockCells(pos, s.made))
      else Tell(s, t, Cell(pos), None)
    case LockCells(pos, obj) => Goto(s.(lock := Some(t)), t, Recheck(pos, obj))
    case Recheck(pos, obj) =>
      Goto(s, t, if CellDecoded(s.mem, pos) then ReadLocked(pos, obj) else WriteCell(pos, obj))
    case ReadLocked(pos, obj) =>
      if s.mem.cells[pos].None? then Goto(s.(heap := s.heap.(fault := true), lock := None), t, Idle)
      else Goto(s, t, UnlockLoser(pos, obj, s.mem.cells[pos].value))
    case UnlockLoser(pos, obj, winner) => Goto(s.(lock := None), t, FreeLoser(pos, obj, winner))
    case FreeLoser(pos, obj, winner) =>
      Tell(s.(heap := Delete(s.heap, obj)), t, Cell(pos), Some(winner))
    case WriteCell(pos, obj) =>
      Goto(s.(mem := s.mem.(cells := s.mem.cells[pos := Some(obj)])), t, LoadGroup(pos, obj))
    case LoadGroup(pos, obj) => Goto(s, t, StoreGroup(pos, obj, s.mem.groups[Group(pos)]))
    case StoreGroup(pos, obj, bits) =>
      Goto(s.(mem := s.mem.(groups := s.mem.groups[Group(pos) := bits + {Offset(pos)}])), t, PushCache(pos, obj))
    case PushCache(pos, obj) =>
      var cache := if |s.mem.cache| < MaxCellCacheSize(s.mem) then s.mem.cache + [pos] else s.mem.cache;
      Goto(s.(mem := s.mem.(cache := cache)), t, UnlockWinner(pos, obj))
    case UnlockWinner(pos, obj) =>
      // The thread releases its object to the cell.
      Tell(s.(heap := s.heap.(owner := s.heap.owner[obj := ByCell(pos)]), lock := None), t, Cell(pos), Some(obj))
    // shape
    case LoadShape(id) =>
      if s.mem.shapes[id].Undecoded? then Goto(s, t, MakeShape(id))
      else Tell(s, t, Shape(id), s.mem.shapes[id].shape)
    // GetShape
    case MakeShape(id) =>
      if s.data.hasShape[id] then Goto(Make(s, t, Shape(id)), t, Exchange(id, Some(s.made)))
      else Goto(s, t, Exchange(id, None))
    case Exchange(id, shape) =>
      if s.mem.shapes[id].Undecoded? then
        var owner := if shape.Some? then s.heap.owner[shape.value := ByShape(id)] else s.heap.owner;
        Tell(s.(mem := s.mem.(shapes := s.mem.shapes[id := Decoded(shape)]), heap := s.heap.(owner := owner)), t, Shape(id), shape)
      else if shape.Some? then Goto(s, t, FreeShape(id, shape.value, s.mem.shapes[id].shape))
      else Tell(s, t, Shape(id), s.mem.shapes[id].shape)
    case FreeShape(id, obj, expected) =>
      Tell(s.(heap := Delete(s.heap, obj)), t, Shape(id), expected)
  }

  // ----- Minimize -----

  // Minimize is not thread safe: the caller makes sure that no thread is using
  // the index, and nobody keeps an answer.
  predicate CanMinimize(s: State)
  {
    forall t :: 0 <= t < |s.pcs| ==> s.pcs[t] == Idle
  }

  function ClearedShape(slot: ShapeSlot): ShapeSlot
  {
    if slot.Decoded? && slot.shape.Some? then Undecoded else slot
  }

  // Nothing is left but the shapes that are known not to exist.
  function Cleared(m: Memory): Memory
  {
    m.(shapes := seq(|m.shapes|, i requires 0 <= i < |m.shapes| => ClearedShape(m.shapes[i])),
       groups := seq(|m.groups|, i => {}), cache := [])
  }

  function Minimized(s: State): State
  {
    s.(mem := Cleared(s.mem), heap := s.heap.(owner := map[]), told := {})
  }

  ghost predicate Init(s: State)
  {
    && Sized(s.data, s.mem)
    && (forall g :: 0 <= g < |s.mem.groups| ==> s.mem.groups[g] == {})
    && (forall id :: 0 <= id < |s.mem.shapes| ==> s.mem.shapes[id] == Undecoded)
    && s.mem.cache == [] && s.heap == Heap(map[], false)
    && s.lock == None && s.told == {}
    && (forall t :: 0 <= t < |s.pcs| ==> s.pcs[t] == Idle)
  }

  ghost predicate Next(s: State, s': State)
  {
    || (exists t, key :: CanStep(s, t, key) && s' == Step(s, t, key))
    || (CanMinimize(s) && s' == Minimized(s))
  }

  ghost predicate CanStep(s: State, t: nat, key: Key)
  {
    t < |s.pcs| && Sized(s.data, s.mem) && PcExists(s.data, s.pcs[t]) && Enabled(s, t) && KeyExists(s.data, key)
  }

  // ----- the invariant -----

  predicate HoldsLock(pc: Pc)
  {
    match pc
    case Recheck(_, _) | ReadLocked(_, _) | WriteCell(_, _) | LoadGroup(_, _) | PushCache(_, _) | UnlockWinner(_, _) => true
    case UnlockLoser(_, _, _) => true
    case StoreGroup(_, _, _) => true
    case _ => false
  }

  // The object that a thread has made and not given away.
  function Own(pc: Pc): Option<nat>
  {
    match pc
    case LockCells(_, o) => Some(o)
    case Recheck(_, o) => Some(o)
    case ReadLocked(_, o) => Some(o)
    case UnlockLoser(_, o, _) => Some(o)
    case FreeLoser(_, o, _) => Some(o)
    case WriteCell(_, o) => Some(o)
    case LoadGroup(_, o) => Some(o)
    case StoreGroup(_, o, _) => Some(o)
    case PushCache(_, o) => Some(o)
    case UnlockWinner(_, o) => Some(o)
    case Exchange(_, shape) => shape
    case FreeShape(_, o, _) => Some(o)
    case _ => None
  }

  // The cell is decoded, but the thread has not released its object yet.
  predicate Publishing(pc: Pc, pos: nat, obj: nat)
  {
    pc == PushCache(pos, obj) || pc == UnlockWinner(pos, obj)
  }

  ghost predicate Inv(s: State)
  {
    && !s.heap.fault
    && SizeInv(s.data, s.mem, s.pcs) && LockInv(s.lock, s.pcs) && OwnerInv(s.mem, s.heap.owner, s.pcs, s.made)
    && CellInv(s.data, s.mem, s.heap.owner, Holder(s.lock, s.pcs)) && ShapeInv(s.data, s.mem, s.heap.owner)
    && ThreadInv(s.data, s.mem, s.pcs) && CacheInv(s.mem, Holder(s.lock, s.pcs)) && ToldInv(s.data, s.mem, s.told)
  }

  ghost predicate SizeInv(d: Data, m: Memory, pcs: seq<Pc>)
  {
    && Sized(d, m)
    && (forall g, o :: 0 <= g < |m.groups| && o in m.groups[g] ==> BitExists(m, g, o))
    && (forall t :: 0 <= t < |pcs| ==> PcExists(d, pcs[t]))
  }

  predicate BitExists(m: Memory, g: nat, o: nat)
  {
    o < 64 && Position(g, o) < |m.cells|
  }

  ghost predicate LockInv(lock: Option<nat>, pcs: seq<Pc>)
  {
    && (forall t :: 0 <= t < |pcs| && HoldsLock(pcs[t]) ==> lock == Some(t))
    && (lock.Some? ==> lock.value < |pcs| && HoldsLock(pcs[lock.value]))
  }

  // What the thread that holds the lock does next.
  function Holder(lock: Option<nat>, pcs: seq<Pc>): Pc
  {
    if lock.Some? && lock.value < |pcs| then pcs[lock.value] else Idle
  }

  // An object belongs to the thread, the cell or the shape slot that has it.
  ghost predicate OwnerInv(m: Memory, owner: map<nat, Owner>, pcs: seq<Pc>, made: nat)
  {
    && (forall o :: o in owner ==> o < made && Owned(m, pcs, o, owner[o]))
    && (forall t :: 0 <= t < |pcs| && Own(pcs[t]).Some? ==>
          Own(pcs[t]).value in owner && owner[Own(pcs[t]).value] == ByThread(t))
  }

  ghost predicate Owned(m: Memory, pcs: seq<Pc>, o: nat, owner: Owner)
  {
    match owner
    case ByThread(t) => t < |pcs| && Own(pcs[t]) == Some(o)
    case ByCell(pos) => pos < |m.cells| && CellDecoded(m, pos) && m.cells[pos] == Some(o)
    case ByShape(id) => id < |m.shapes| && m.shapes[id] == Decoded(Some(o))
  }

  // A set bit implies a written slot.
  ghost predicate CellInv(d: Data, m: Memory, owner: map<nat, Owner>, holder: Pc)
  {
    forall pos :: 0 <= pos < |m.cells| && CellDecoded(m, pos) ==> CellWritten(d, m, owner, holder, pos)
  }

  ghost predicate CellWritten(d: Data, m: Memory, owner: map<nat, Owner>, holder: Pc, pos: nat)
    requires pos < |m.cells|
  {
    && m.cells[pos].Some? && m.cells[pos].value in owner && pos < |d.decodes| && d.decodes[pos]
    && (owner[m.cells[pos].value] == ByCell(pos) || Publishing(holder, pos, m.cells[pos].value))
  }

  ghost predicate ShapeInv(d: Data, m: Memory, owner: map<nat, Owner>)
  {
    forall id :: 0 <= id < |m.shapes| && m.shapes[id].Decoded? ==> ShapeWritten(d, m, owner, id)
  }

  ghost predicate ShapeWritten(d: Data, m: Memory, owner: map<nat, Owner>, id: nat)
    requires id < |m.shapes| && m.shapes[id].Decoded?
  {
    var shape := m.shapes[id].shape;
    && id < |d.hasShape| && d.hasShape[id] == shape.Some?
    && (shape.Some? ==> shape.value in owner && owner[shape.value] == ByShape(id))
  }

  // What a thread has learned still holds.
  ghost predicate ThreadInv(d: Data, m: Memory, pcs: seq<Pc>)
  {
    forall t :: 0 <= t < |pcs| ==> Knows(d, m, pcs[t])
  }

  ghost predicate Knows(d: Data, m: Memory, pc: Pc)
  {
    match pc
    case ReadCell(pos) => CellDecoded(m, pos)
    case ReadLocked(pos, _) => CellDecoded(m, pos)
    case UnlockLoser(pos, _, winner) => CellDecoded(m, pos) && pos < |m.cells| && m.cells[pos] == Some(winner)
    case FreeLoser(pos, _, winner) => CellDecoded(m, pos) && pos < |m.cells| && m.cells[pos] == Some(winner)
    case LockCells(pos, _) => pos < |d.decodes| && d.decodes[pos]
    case Recheck(pos, _) => pos < |d.decodes| && d.decodes[pos]
    case WriteCell(pos, _) => pos < |d.decodes| && d.decodes[pos] && !CellDecoded(m, pos)
    case LoadGroup(pos, o) =>
      pos < |d.decodes| && d.decodes[pos] && !CellDecoded(m, pos) && pos < |m.cells| && m.cells[pos] == Some(o)
    case StoreGroup(pos, o, bits) =>
      && pos < |d.decodes| && d.decodes[pos] && !CellDecoded(m, pos) && pos < |m.cells| && m.cells[pos] == Some(o)
      && Group(pos) < |m.groups| && bits == m.groups[Group(pos)]
    case PushCache(pos, o) => CellDecoded(m, pos) && pos < |m.cells| && m.cells[pos] == Some(o)
    case UnlockWinner(pos, o) => CellDecoded(m, pos) && pos < |m.cells| && m.cells[pos] == Some(o)
    case Exchange(id, shape) => id < |d.hasShape| && d.hasShape[id] == shape.Some?
    case FreeShape(id, _, expected) => id < |m.shapes| && m.shapes[id] == Decoded(expected)
    case _ => true
  }

  // The cache lists decoded cells, each once, and all of them unless it is full;
  // one that is just being published is missing.
  ghost predicate CacheInv(m: Memory, holder: Pc)
  {
    && |m.cache| <= MaxCellCacheSize(m)
    && (forall i :: 0 <= i < |m.cache| ==> m.cache[i] < |m.cells| && CellDecoded(m, m.cache[i]))
    && (forall i, j :: 0 <= i < j < |m.cache| ==> m.cache[i] != m.cache[j])
    && (|m.cache| < MaxCellCacheSize(m) ==>
          forall pos :: 0 <= pos < |m.cells| && CellDecoded(m, pos) ==> pos in m.cache || Pending(holder, pos))
    && (forall pos :: Pending(holder, pos) ==> pos !in m.cache)
  }

  predicate Pending(holder: Pc, pos: nat)
  {
    holder.PushCache? && holder.pos == pos
  }

  // What callers have been told still holds.
  ghost predicate ToldInv(d: Data, m: Memory, told: set<(Key, Option<nat>)>)
  {
    forall a :: a in told ==> IsAnswer(d, m, a.0, a.1)
  }

  ghost predicate IsAnswer(d: Data, m: Memory, key: Key, answer: Option<nat>)
  {
    match key
    case Cell(pos) =>
      && pos < |d.decodes| && d.decodes[pos] == answer.Some?
      && (answer.Some? ==> pos < |m.cells| && CellDecoded(m, pos) && m.cells[pos] == answer)
    case Shape(id) =>
      && id < |m.shapes| && m.shapes[id] == Decoded(answer)
      && id < |d.hasShape| && d.hasShape[id] == answer.Some?
  }

  // ----- every step keeps the invariant -----

  // The thread goes on without touching shared memory.
  lemma MoveKeeps(s: State, t: nat, pc: Pc)
    requires Inv(s) && t < |s.pcs| && Own(pc) == Own(s.pcs[t]) && HoldsLock(pc) == HoldsLock(s.pcs[t])
    requires PcExists(s.data, pc) && Knows(s.data, s.mem, pc)
    requires !pc.PushCache? && !pc.UnlockWinner? && !s.pcs[t].PushCache? && !s.pcs[t].UnlockWinner?
    ensures Inv(Goto(s, t, pc))
  {
    hide Knows, PcExists, CellDecoded, IsAnswer, BitExists, ShapeWritten, Sized;
  }

  lemma TellKeeps(s: State, key: Key, answer: Option<nat>)
    requires Inv(s) && IsAnswer(s.data, s.mem, key, answer)
    ensures Inv(s.(told := s.told + {(key, answer)}))
  {
    hide Knows, PcExists, CellDecoded, IsAnswer, SizeInv, OwnerInv, LockInv, CellInv, ShapeInv, ThreadInv, CacheInv;
  }

  lemma LockKeeps(s: State, t: nat, pc: Pc)
    requires Inv(s) && t < |s.pcs| && s.lock.None? && s.pcs[t].LockCells? && pc == Recheck(s.pcs[t].pos, s.pcs[t].obj)
    ensures Inv(Goto(s.(lock := Some(t)), t, pc))
  {
    hide CellDecoded, IsAnswer, BitExists, ShapeWritten, Sized;
  }

  lemma UnlockKeeps(s: State, t: nat, pc: Pc)
    requires Inv(s) && t < |s.pcs| && s.pcs[t].UnlockLoser?
    requires pc == FreeLoser(s.pcs[t].pos, s.pcs[t].obj, s.pcs[t].winner)
    ensures Inv(Goto(s.(lock := None), t, pc))
  {
    hide CellDecoded, IsAnswer, BitExists, ShapeWritten, Sized;
  }

  lemma MakeKeeps(s: State, t: nat, key: Key, pc: Pc)
    requires Inv(s) && t < |s.pcs| && Own(s.pcs[t]).None? && Own(pc) == Some(s.made)
    requires !HoldsLock(s.pcs[t]) && !HoldsLock(pc) && PcExists(s.data, pc) && Knows(s.data, s.mem, pc)
    ensures Inv(Goto(Make(s, t, key), t, pc))
  {
    hide PcExists, CellDecoded, IsAnswer, BitExists, HoldsLock, Knows, Sized;
  }

  // A thread's own object is in no slot.
  lemma OwnIsPrivate(s: State, t: nat, obj: nat)
    requires Inv(s) && t < |s.pcs| && Own(s.pcs[t]) == Some(obj) && !HoldsLock(s.pcs[t])
    ensures obj in s.heap.owner && s.heap.owner[obj] == ByThread(t)
    ensures forall pos :: 0 <= pos < |s.mem.cells| && CellDecoded(s.mem, pos) ==> s.mem.cells[pos] != Some(obj)
    ensures forall u :: 0 <= u < |s.pcs| && u != t ==> Own(s.pcs[u]) != Some(obj)
  {
    hide CellDecoded, BitExists, Knows, Sized;
    var holder := Holder(s.lock, s.pcs);
    forall pos | 0 <= pos < |s.mem.cells| && CellDecoded(s.mem, pos)
      ensures s.mem.cells[pos] != Some(obj)
    {
      assert CellWritten(s.data, s.mem, s.heap.owner, holder, pos);
      assert Publishing(holder, pos, obj) ==> Own(holder) == Some(obj);
    }
  }

  // A thread deletes its own copy.
  lemma DeleteKeeps(s: State, t: nat, obj: nat)
    requires Inv(s) && t < |s.pcs| && Own(s.pcs[t]) == Some(obj) && !HoldsLock(s.pcs[t])
    ensures Inv(Goto(s.(heap := Delete(s.heap, obj)), t, Idle))
  {
    OwnIsPrivate(s, t, obj);
    hide CellDecoded, IsAnswer, BitExists, Knows, Sized;
    assert Knows(s.data, s.mem, Idle) && PcExists(s.data, Idle) by {
      IdleKnows(s.data, s.mem);
    }
  }

  lemma IdleKnows(d: Data, m: Memory)
    ensures Knows(d, m, Idle) && PcExists(d, Idle)
  {
  }

  // What is decoded stays as it is.
  ghost predicate Grows(m: Memory, m': Memory)
  {
    && |m'.cells| == |m.cells| && |m'.shapes| == |m.shapes| && |m'.groups| == |m.groups|
    && (forall pos :: 0 <= pos < |m.cells| && CellDecoded(m, pos) ==> CellDecoded(m', pos) && m'.cells[pos] == m.cells[pos])
    && (forall id :: 0 <= id < |m.shapes| && m.shapes[id].Decoded? ==> m'.shapes[id] == m.shapes[id])
  }

  lemma ToldGrows(d: Data, m: Memory, m': Memory, told: set<(Key, Option<nat>)>)
    requires ToldInv(d, m, told) && Grows(m, m')
    ensures ToldInv(d, m', told)
  {
    hide CellDecoded;
    forall a | a in told
      ensures IsAnswer(d, m', a.0, a.1)
    {
      assert IsAnswer(d, m, a.0, a.1);
    }
  }

  // Threads that do not hold the lock know only what is decoded.
  lemma KnowsGrows(d: Data, m: Memory, m': Memory, pc: Pc)
    requires Knows(d, m, pc) && Grows(m, m') && PcExists(d, pc) && Sized(d, m) && !HoldsLock(pc)
    ensures Knows(d, m', pc)
  {
    hide CellDecoded;
  }

  lemma ThreadsGrow(s: State, m': Memory, t: nat, pc: Pc)
    requires Inv(s) && t < |s.pcs| && Grows(s.mem, m') && Knows(s.data, m', pc)
    requires forall u :: 0 <= u < |s.pcs| && u != t ==> !HoldsLock(s.pcs[u])
    ensures ThreadInv(s.data, m', s.pcs[t := pc])
  {
    hide Knows, HoldsLock, Grows, CellDecoded, OwnerInv, CellInv, ShapeInv, CacheInv, ToldInv, PcExists, Sized;
    forall u | 0 <= u < |s.pcs| && u != t
      ensures Knows(s.data, m', s.pcs[u])
    {
      KnowsGrows(s.data, s.mem, m', s.pcs[u]);
    }
  }

  // The slot is written while its bit is clear.
  lemma WriteKeeps(s: State, t: nat, pos: nat, obj: nat)
    requires Inv(s) && t < |s.pcs| && s.pcs[t] == WriteCell(pos, obj)
    ensures Inv(Goto(s.(mem := s.mem.(cells := s.mem.cells[pos := Some(obj)])), t, LoadGroup(pos, obj)))
  {
    var m := s.mem;
    assert Knows(s.data, m, s.pcs[t]) && PcExists(s.data, s.pcs[t]);
    var m' := m.(cells := m.cells[pos := Some(obj)]);
    var s' := Goto(s.(mem := m'), t, LoadGroup(pos, obj));
    assert forall q :: CellDecoded(m', q) == CellDecoded(m, q);
    assert Grows(m, m');
    assert Knows(s.data, m', LoadGroup(pos, obj));
    ThreadsGrow(s, m', t, LoadGroup(pos, obj));
    ToldGrows(s.data, m, m', s.told);
    hide CellDecoded, IsAnswer, BitExists, Knows, Grows, ThreadInv, ToldInv, ShapeWritten;
    assert CacheInv(m', LoadGroup(pos, obj)) by {
      hide OwnerInv, CellInv, ShapeInv;
    }
    hide CacheInv;
  }

  // The store adds the bit and loses none of the group, because the lock has
  // been held since the load.
  lemma BitIsAdded(m: Memory, m': Memory, pos: nat)
    requires |m.groups| == NumGroups(|m.cells|) && pos < |m.cells| && Group(pos) < |m.groups|
    requires m' == m.(groups := m.groups[Group(pos) := m.groups[Group(pos)] + {Offset(pos)}])
    ensures forall q :: CellDecoded(m', q) <==> CellDecoded(m, q) || q == pos
    ensures forall g, o :: 0 <= g < |m'.groups| && o in m'.groups[g] ==>
              (o in m.groups[g] || (o < 64 && Position(g, o) == pos))
  {
    hide Group, Offset, Position, NumGroups;
    PositionOf(pos);
    forall q
      ensures CellDecoded(m', q) <==> CellDecoded(m, q) || q == pos
    {
      if Group(q) == Group(pos) && Offset(q) == Offset(pos) {
        SameBit(q, pos);
      }
    }
  }

  lemma StoreKeeps(s: State, t: nat, pos: nat, obj: nat, bits: set<nat>)
    requires Inv(s) && t < |s.pcs| && s.pcs[t] == StoreGroup(pos, obj, bits)
    requires Group(pos) < |s.mem.groups|
    ensures Inv(Goto(s.(mem := s.mem.(groups := s.mem.groups[Group(pos) := bits + {Offset(pos)}])), t, PushCache(pos, obj)))
  {
    var m := s.mem;
    assert Knows(s.data, m, s.pcs[t]) && PcExists(s.data, s.pcs[t]);
    var m' := m.(groups := m.groups[Group(pos) := bits + {Offset(pos)}]);
    BitIsAdded(m, m', pos);
    hide Position, Offset, Group, CellDecoded;
    assert Grows(m, m');
    assert Knows(s.data, m', PushCache(pos, obj));
    ThreadsGrow(s, m', t, PushCache(pos, obj));
    ToldGrows(s.data, m, m', s.told);
    assert CellInv(s.data, m', s.heap.owner, PushCache(pos, obj)) by {
      hide CacheInv, ToldInv, ThreadInv, ShapeInv, Grows, LockInv;
      assert Own(s.pcs[t]) == Some(obj);
    }
    hide IsAnswer, Knows, Grows, CellWritten, ShapeWritten, MaxCellCacheSize;
    assert CacheInv(m', PushCache(pos, obj)) by {
      hide OwnerInv, CellInv, ShapeInv, SizeInv, ThreadInv, ToldInv;
    }
  }

  lemma PushKeeps(s: State, t: nat, pos: nat, obj: nat, cache: seq<nat>)
    requires Inv(s) && t < |s.pcs| && s.pcs[t] == PushCache(pos, obj)
    requires cache == if |s.mem.cache| < MaxCellCacheSize(s.mem) then s.mem.cache + [pos] else s.mem.cache
    ensures Inv(Goto(s.(mem := s.mem.(cache := cache)), t, UnlockWinner(pos, obj)))
  {
    var m := s.mem;
    var m' := m.(cache := cache);
    assert Knows(s.data, m, s.pcs[t]) && PcExists(s.data, s.pcs[t]);
    assert forall q :: CellDecoded(m', q) == CellDecoded(m, q);
    assert Grows(m, m');
    assert Knows(s.data, m', UnlockWinner(pos, obj));
    ThreadsGrow(s, m', t, UnlockWinner(pos, obj));
    ToldGrows(s.data, m, m', s.told);
    CachePush(m, m', pos, obj, cache);
    hide IsAnswer, Knows, Grows, CellDecoded, ShapeWritten, Sized, BitExists, CacheInv, ThreadInv, ToldInv;
    assert Holder(s.lock, s.pcs) == s.pcs[t];
  }

  lemma CachePush(m: Memory, m': Memory, pos: nat, obj: nat, cache: seq<nat>)
    requires CacheInv(m, PushCache(pos, obj)) && pos < |m.cells| && CellDecoded(m, pos) && m' == m.(cache := cache)
    requires cache == if |m.cache| < MaxCellCacheSize(m) then m.cache + [pos] else m.cache
    ensures CacheInv(m', UnlockWinner(pos, obj))
  {
    SameTables(m, m');
    hide CellDecoded, MaxCellCacheSize;
    assert Pending(PushCache(pos, obj), pos);
    forall i | 0 <= i < |cache|
      ensures cache[i] < |m.cells| && CellDecoded(m, cache[i])
    {
      if i < |m.cache| {
        assert cache[i] == m.cache[i];
      }
    }
    forall i, j | 0 <= i < j < |cache|
      ensures cache[i] != cache[j]
    {
      assert cache[i] == m.cache[i];
      assert m.cache[i] in m.cache;
    }
  }

  lemma SameTables(m: Memory, m': Memory)
    requires m'.cells == m.cells && m'.groups == m.groups
    ensures MaxCellCacheSize(m') == MaxCellCacheSize(m)
    ensures forall q :: CellDecoded(m', q) == CellDecoded(m, q)
  {
  }

  // The cell takes over the object.
  lemma ReleaseKeeps(s: State, t: nat, pos: nat, obj: nat)
    requires Inv(s) && t < |s.pcs| && s.pcs[t] == UnlockWinner(pos, obj)
    ensures Inv(Goto(s.(heap := s.heap.(owner := s.heap.owner[obj := ByCell(pos)]), lock := None), t, Idle))
    ensures IsAnswer(s.data, s.mem, Cell(pos), Some(obj))
  {
    assert Knows(s.data, s.mem, s.pcs[t]) && PcExists(s.data, s.pcs[t]);
    assert CellWritten(s.data, s.mem, s.heap.owner, s.pcs[t], pos);
    assert Own(s.pcs[t]) == Some(obj);
    IdleKnows(s.data, s.mem);
    hide CellDecoded, IsAnswer, BitExists, Knows, Sized;
  }

  // The slot takes over the object, and keeps it.
  lemma ExchangeKeeps(s: State, t: nat, id: nat, shape: Option<nat>, owner: map<nat, Owner>)
    requires Inv(s) && t < |s.pcs| && s.pcs[t] == Exchange(id, shape) && id < |s.mem.shapes| && s.mem.shapes[id].Undecoded?
    requires owner == if shape.Some? then s.heap.owner[shape.value := ByShape(id)] else s.heap.owner
    ensures Inv(Goto(s.(mem := s.mem.(shapes := s.mem.shapes[id := Decoded(shape)]), heap := s.heap.(owner := owner)), t, Idle))
    ensures IsAnswer(s.data, s.mem.(shapes := s.mem.shapes[id := Decoded(shape)]), Shape(id), shape)
  {
    var m := s.mem;
    var m' := m.(shapes := m.shapes[id := Decoded(shape)]);
    assert Knows(s.data, m, s.pcs[t]) && PcExists(s.data, s.pcs[t]);
    assert forall q :: CellDecoded(m', q) == CellDecoded(m, q);
    assert IsAnswer(s.data, m', Shape(id), shape);
    IdleKnows(s.data, m');
    if shape.Some? {
      OwnIsPrivate(s, t, shape.value);
    }
    forall u | 0 <= u < |s.pcs|
      ensures HoldsLock(s.pcs[u]) ==> Knows(s.data, m', s.pcs[u])
    {
      assert Knows(s.data, m, s.pcs[u]);
    }
    hide CellDecoded;
    assert Grows(m, m');
    ThreadsExchange(s, m', t);
    ToldGrows(s.data, m, m', s.told);
    hide IsAnswer, BitExists, Knows, Grows, ToldInv, ThreadInv;
    ExchangeOwners(m, m', s.heap.owner, owner, s.pcs, s.made, t, id, shape);
    ExchangeSlots(s, id, shape, owner);
    hide OwnerInv, ShapeInv, CellInv, CacheInv;
  }

  lemma ThreadsExchange(s: State, m': Memory, t: nat)
    requires Inv(s) && t < |s.pcs| && Grows(s.mem, m') && Knows(s.data, m', Idle)
    requires forall u :: 0 <= u < |s.pcs| && HoldsLock(s.pcs[u]) ==> Knows(s.data, m', s.pcs[u])
    ensures ThreadInv(s.data, m', s.pcs[t := Idle])
  {
    hide Knows, HoldsLock, Grows, CellDecoded, OwnerInv, CellInv, ShapeInv, CacheInv, ToldInv, PcExists, Sized;
    forall u | 0 <= u < |s.pcs| && u != t
      ensures Knows(s.data, m', s.pcs[u])
    {
      if !HoldsLock(s.pcs[u]) {
        KnowsGrows(s.data, s.mem, m', s.pcs[u]);
      }
    }
  }

  lemma ExchangeOwners(m: Memory, m': Memory, owner: map<nat, Owner>, owner': map<nat, Owner>, pcs: seq<Pc>, made: nat,
                       t: nat, id: nat, shape: Option<nat>)
    requires OwnerInv(m, owner, pcs, made) && t < |pcs| && Own(pcs[t]) == shape && Own(Idle) == None
    requires id < |m.shapes| && m.shapes[id].Undecoded? && m' == m.(shapes := m.shapes[id := Decoded(shape)])
    requires owner' == if shape.Some? then owner[shape.value := ByShape(id)] else owner
    ensures OwnerInv(m', owner', pcs[t := Idle], made)
  {
    assert forall q :: CellDecoded(m', q) == CellDecoded(m, q);
    hide CellDecoded, Own;
    var pcs' := pcs[t := Idle];
    forall o | o in owner'
      ensures o < made && Owned(m', pcs', o, owner'[o])
    {
      if shape != Some(o) {
        assert Owned(m, pcs, o, owner[o]);
      }
    }
  }

  lemma ExchangeSlots(s: State, id: nat, shape: Option<nat>, owner: map<nat, Owner>)
    requires Inv(s) && id < |s.mem.shapes| && s.mem.shapes[id].Undecoded?
    requires id < |s.data.hasShape| && s.data.hasShape[id] == shape.Some?
    requires shape.Some? ==> forall pos :: 0 <= pos < |s.mem.cells| && CellDecoded(s.mem, pos) ==> s.mem.cells[pos] != shape
    requires shape.Some? ==> shape.value in s.heap.owner && s.heap.owner[shape.value].ByThread?
    requires owner == if shape.Some? then s.heap.owner[shape.value := ByShape(id)] else s.heap.owner
    ensures var m' := s.mem.(shapes := s.mem.shapes[id := Decoded(shape)]);
            && ShapeInv(s.data, m', owner)
            && CellInv(s.data, m', owner, Holder(s.lock, s.pcs)) && CacheInv(m', Holder(s.lock, s.pcs))
  {
    var m' := s.mem.(shapes := s.mem.shapes[id := Decoded(shape)]);
    assert forall q :: CellDecoded(m', q) == CellDecoded(s.mem, q);
    hide CellDecoded, SizeInv, ThreadInv, ToldInv, LockInv, OwnerInv, Holder;
    assert CacheInv(m', Holder(s.lock, s.pcs)) by {
      hide ShapeInv, CellInv;
    }
    hide CacheInv, Publishing;
  }

  // A step that ends with an answer.
  lemma MoveAndTell(s: State, t: nat, key: Key, answer: Option<nat>)
    requires Inv(s) && t < |s.pcs| && Own(s.pcs[t]).None? && !HoldsLock(s.pcs[t])
    requires IsAnswer(s.data, s.mem, key, answer)
    ensures Inv(Tell(s, t, key, answer))
  {
    hide Inv, IsAnswer, Knows, PcExists;
    IdleKnows(s.data, s.mem);
    MoveKeeps(s, t, Idle);
    TellKeeps(Goto(s, t, Idle), key, answer);
  }

  lemma CellStepKeeps(s: State, t: nat, key: Key)
    requires Inv(s) && CanStep(s, t, key)
    requires s.pcs[t].CheckCell? || s.pcs[t].ReadCell? || s.pcs[t].DecodeCell? || s.pcs[t].LockCells? || s.pcs[t].Recheck?
             || s.pcs[t].ReadLocked? || s.pcs[t].UnlockLoser? || s.pcs[t].FreeLoser?
    ensures Inv(Step(s, t, key))
  {
    assert Knows(s.data, s.mem, s.pcs[t]);
    var holder := Holder(s.lock, s.pcs);
    match s.pcs[t]
    case CheckCell(pos) =>
      MoveKeeps(s, t, if CellDecoded(s.mem, pos) then ReadCell(pos) else DecodeCell(pos));
    case ReadCell(pos) =>
      assert CellWritten(s.data, s.mem, s.heap.owner, holder, pos);
      hide Inv, CellDecoded;
      MoveAndTell(s, t, Cell(pos), s.mem.cells[pos]);
    case DecodeCell(pos) =>
      if s.data.decodes[pos] {
        MakeKeeps(s, t, Cell(pos), LockCells(pos, s.made));
      } else {
        MoveAndTell(s, t, Cell(pos), None);
      }
    case LockCells(pos, obj) =>
      LockKeeps(s, t, Recheck(pos, obj));
    case Recheck(pos, obj) =>
      MoveKeeps(s, t, if CellDecoded(s.mem, pos) then ReadLocked(pos, obj) else WriteCell(pos, obj));
    case ReadLocked(pos, obj) =>
      assert CellWritten(s.data, s.mem, s.heap.owner, holder, pos);
      hide Inv, CellDecoded;
      MoveKeeps(s, t, UnlockLoser(pos, obj, s.mem.cells[pos].value));
    case UnlockLoser(pos, obj, winner) =>
      UnlockKeeps(s, t, FreeLoser(pos, obj, winner));
    case FreeLoser(pos, obj, winner) =>
      assert CellWritten(s.data, s.mem, s.heap.owner, holder, pos);
      hide Inv, CellDecoded;
      DeleteKeeps(s, t, obj);
      TellKeeps(Goto(s.(heap := Delete(s.heap, obj)), t, Idle), Cell(pos), Some(winner));
  }

  lemma WriteStep(s: State, t: nat, key: Key, pos: nat, obj: nat)
    requires Inv(s) && CanStep(s, t, key) && (s.pcs[t] == WriteCell(pos, obj) || s.pcs[t] == LoadGroup(pos, obj))
    ensures Inv(Step(s, t, key))
  {
    assert Knows(s.data, s.mem, s.pcs[t]);
    hide Inv, CellDecoded;
    if s.pcs[t].WriteCell? {
      WriteKeeps(s, t, pos, obj);
    } else {
      MoveKeeps(s, t, StoreGroup(pos, obj, s.mem.groups[Group(pos)]));
    }
  }

  lemma StoreStep(s: State, t: nat, key: Key, pos: nat, obj: nat, bits: set<nat>)
    requires Inv(s) && CanStep(s, t, key) && s.pcs[t] == StoreGroup(pos, obj, bits)
    ensures Inv(Step(s, t, key))
  {
    hide Inv, CellDecoded;
    StoreKeeps(s, t, pos, obj, bits);
  }

  lemma PushStep(s: State, t: nat, key: Key, pos: nat, obj: nat)
    requires Inv(s) && CanStep(s, t, key) && s.pcs[t] == PushCache(pos, obj)
    ensures Inv(Step(s, t, key))
  {
    hide Inv, CellDecoded;
    PushKeeps(s, t, pos, obj, if |s.mem.cache| < MaxCellCacheSize(s.mem) then s.mem.cache + [pos] else s.mem.cache);
  }

  lemma ReleaseStep(s: State, t: nat, key: Key, pos: nat, obj: nat)
    requires Inv(s) && CanStep(s, t, key) && s.pcs[t] == UnlockWinner(pos, obj)
    ensures Inv(Step(s, t, key))
  {
    hide Inv, CellDecoded, IsAnswer;
    ReleaseKeeps(s, t, pos, obj);
    var owner := s.heap.owner[obj := ByCell(pos)];
    TellKeeps(Goto(s.(heap := s.heap.(owner := owner), lock := None), t, Idle), Cell(pos), Some(obj));
  }

  lemma FreeShapeStep(s: State, t: nat, key: Key, id: nat, obj: nat, expected: Option<nat>)
    requires Inv(s) && CanStep(s, t, key) && s.pcs[t] == FreeShape(id, obj, expected)
    ensures Inv(Step(s, t, key))
  {
    assert Knows(s.data, s.mem, s.pcs[t]);
    assert ShapeWritten(s.data, s.mem, s.heap.owner, id);
    hide Inv;
    DeleteKeeps(s, t, obj);
    TellKeeps(Goto(s.(heap := Delete(s.heap, obj)), t, Idle), Shape(id), expected);
  }

  lemma ShapeStepKeeps(s: State, t: nat, key: Key)
    requires Inv(s) && CanStep(s, t, key)
    requires s.pcs[t].Idle? || s.pcs[t].LoadShape? || s.pcs[t].MakeShape?
    ensures Inv(Step(s, t, key))
  {
    assert Knows(s.data, s.mem, s.pcs[t]);
    match s.pcs[t]
    case Idle =>
      hide Inv;
      MoveKeeps(s, t, if key.Cell? then CheckCell(key.pos) else LoadShape(key.id));
    case LoadShape(id) =>
      assert s.mem.shapes[id].Decoded? ==> ShapeWritten(s.data, s.mem, s.heap.owner, id);
      hide Inv;
      if s.mem.shapes[id].Undecoded? {
        MoveKeeps(s, t, MakeShape(id));
      } else {
        MoveAndTell(s, t, Shape(id), s.mem.shapes[id].shape);
      }
    case MakeShape(id) =>
      hide Inv;
      if s.data.hasShape[id] {
        MakeKeeps(s, t, Shape(id), Exchange(id, Some(s.made)));
      } else {
        MoveKeeps(s, t, Exchange(id, None));
      }
  }

  lemma ExchangeStep(s: State, t: nat, id: nat, shape: Option<nat>, key: Key)
    requires Inv(s) && CanStep(s, t, key) && s.pcs[t] == Exchange(id, shape)
    ensures Inv(Step(s, t, key))
  {
    assert Knows(s.data, s.mem, s.pcs[t]);
    assert s.mem.shapes[id].Decoded? ==> ShapeWritten(s.data, s.mem, s.heap.owner, id);
    hide Inv;
    if s.mem.shapes[id].Undecoded? {
      var owner := if shape.Some? then s.heap.owner[shape.value := ByShape(id)] else s.heap.owner;
      ExchangeKeeps(s, t, id, shape, owner);
      var mem := s.mem.(shapes := s.mem.shapes[id := Decoded(shape)]);
      TellKeeps(Goto(s.(mem := mem, heap := s.heap.(owner := owner)), t, Idle), Shape(id), shape);
    } else if shape.Some? {
      MoveKeeps(s, t, FreeShape(id, shape.value, s.mem.shapes[id].shape));
    } else {
      MoveAndTell(s, t, Shape(id), s.mem.shapes[id].shape);
    }
  }

  lemma StepKeepsInv(s: State, t: nat, key: Key)
    requires Inv(s) && CanStep(s, t, key)
    ensures Inv(Step(s, t, key))
  {
    hide Inv, Step;
    match s.pcs[t]
    case Idle | LoadShape(_) | MakeShape(_) => ShapeStepKeeps(s, t, key);
    case Exchange(id, shape) => ExchangeStep(s, t, id, shape, key);
    case FreeShape(id, obj, expected) => FreeShapeStep(s, t, key, id, obj, expected);
    case WriteCell(pos, obj) => WriteStep(s, t, key, pos, obj);
    case LoadGroup(pos, obj) => WriteStep(s, t, key, pos, obj);
    case PushCache(pos, obj) => PushStep(s, t, key, pos, obj);
    case UnlockWinner(pos, obj) => ReleaseStep(s, t, key, pos, obj);
    case StoreGroup(pos, obj, bits) => StoreStep(s, t, key, pos, obj, bits);
    case _ => CellStepKeeps(s, t, key);
  }

  // ----- Minimize -----

  // Every object is in exactly one slot, and the slots are in order.
  ghost predicate Quiet(m: Memory, owner: map<nat, Owner>)
  {
    && |m.groups| == NumGroups(|m.cells|)
    && (forall g, o :: 0 <= g < |m.groups| && o in m.groups[g] ==> BitExists(m, g, o))
    && (forall o :: o in owner ==> !owner[o].ByThread?)
    && CellsStored(m, owner) && ShapesStored(m, owner) && CacheInv(m, Idle)
  }

  ghost predicate CellsStored(m: Memory, owner: map<nat, Owner>)
  {
    && (forall pos :: 0 <= pos < |m.cells| && CellDecoded(m, pos) ==>
          m.cells[pos].Some? && m.cells[pos].value in owner && owner[m.cells[pos].value] == ByCell(pos))
    && (forall o :: o in owner && owner[o].ByCell? ==> Owned(m, [], o, owner[o]))
  }

  ghost predicate ShapesStored(m: Memory, owner: map<nat, Owner>)
  {
    && (forall id :: 0 <= id < |m.shapes| && m.shapes[id].Decoded? && m.shapes[id].shape.Some? ==>
          m.shapes[id].shape.value in owner && owner[m.shapes[id].shape.value] == ByShape(id))
    && (forall o :: o in owner && owner[o].ByShape? ==> Owned(m, [], o, owner[o]))
  }

  // When no thread is in a call, nothing has been lost.
  lemma IdleIsQuiet(s: State)
    requires Inv(s) && CanMinimize(s)
    ensures Quiet(s.mem, s.heap.owner)
  {
    hide CellDecoded, BitExists, CacheInv, Sized, Knows;
    assert s.lock.None?;
    forall pos | 0 <= pos < |s.mem.cells| && CellDecoded(s.mem, pos)
      ensures CellWritten(s.data, s.mem, s.heap.owner, Idle, pos)
    {
    }
    forall id | 0 <= id < |s.mem.shapes| && s.mem.shapes[id].Decoded?
      ensures ShapeWritten(s.data, s.mem, s.heap.owner, id)
    {
    }
    assert Sized(s.data, s.mem) && |s.mem.groups| == NumGroups(|s.mem.cells|) by {
      GroupsFit(s);
    }
  }

  lemma GroupsFit(s: State)
    requires SizeInv(s.data, s.mem, s.pcs)
    ensures Sized(s.data, s.mem) && |s.mem.groups| == NumGroups(|s.mem.cells|)
  {
  }

  // Without the objects of the shapes up to n.
  function DropShapes(owner: map<nat, Owner>, n: nat): map<nat, Owner>
  {
    map o | o in owner && !(owner[o].ByShape? && owner[o].id < n) :: owner[o]
  }

  // Without the objects of some cells.
  function DropCells(owner: map<nat, Owner>, gone: set<nat>): map<nat, Owner>
  {
    map o | o in owner && !(owner[o].ByCell? && owner[o].pos in gone) :: owner[o]
  }

  lemma DropShape(m: Memory, owner: map<nat, Owner>, id: nat)
    requires ShapesStored(m, owner) && id < |m.shapes|
    ensures var slot := m.shapes[id];
            if slot.Decoded? && slot.shape.Some? then
              slot.shape.value in DropShapes(owner, id)
              && DropShapes(owner, id) - {slot.shape.value} == DropShapes(owner, id + 1)
            else DropShapes(owner, id + 1) == DropShapes(owner, id)
  {
  }

  lemma DropCell(m: Memory, owner: map<nat, Owner>, gone: set<nat>, pos: nat)
    requires CellsStored(m, owner) && pos < |m.cells| && CellDecoded(m, pos) && pos !in gone
    ensures m.cells[pos].Some? && m.cells[pos].value in DropCells(owner, gone)
    ensures DropCells(owner, gone) - {m.cells[pos].value} == DropCells(owner, gone + {pos})
  {
    hide CellDecoded;
  }

  // Once all objects of cells are gone, there is none.
  lemma NothingLeft(m: Memory, owner: map<nat, Owner>, gone: set<nat>)
    requires Quiet(m, owner) && forall pos :: 0 <= pos < |m.cells| && CellDecoded(m, pos) ==> pos in gone
    ensures DropCells(DropShapes(owner, |m.shapes|), gone) == map[]
  {
    hide CellDecoded;
    forall o | o in owner
      ensures owner[o].ByShape? ==> owner[o].id < |m.shapes|
      ensures owner[o].ByCell? ==> owner[o].pos in gone
    {
      assert owner[o].ByThread? || Owned(m, [], o, owner[o]);
    }
  }

  class EncodedIndex {
    var shapes: seq<ShapeSlot>
    var cells: seq<Option<nat>>
    var groups: seq<set<nat>>
    var cache: seq<nat>
    var heap: Heap

    ghost function Mem(): Memory
      reads `shapes, `cells, `groups, `cache
    {
      Memory(shapes, cells, groups, cache)
    }

    // Deletes the decoded shapes.
    method ClearShapes()
      requires ShapesStored(Mem(), heap.owner) && !heap.fault
      modifies `shapes, `heap
      ensures shapes == Cleared(old(Mem())).shapes
      ensures heap == Heap(DropShapes(old(heap).owner, |old(shapes)|), false)
    {
      ghost var m, owner := Mem(), heap.owner;
      assert DropShapes(owner, 0) == owner;
      for id := 0 to |shapes|
        invariant |shapes| == |m.shapes|
        invariant forall i :: 0 <= i < |shapes| ==> shapes[i] == if i < id then ClearedShape(m.shapes[i]) else m.shapes[i]
        invariant heap == Heap(DropShapes(owner, id), false)
      {
        DropShape(m, owner, id);
        var slot := shapes[id];
        if slot.Decoded? && slot.shape.Some? {
          shapes := shapes[id := Undecoded];
          heap := Delete(heap, slot.shape.value);
        }
      }
    }

    // Deletes the decoded cells, which the cache lists.
    method ClearCached(ghost m: Memory) returns (ghost gone: set<nat>)
      requires m.cells == cells && m.groups == groups && m.cache == cache
      requires |m.groups| == NumGroups(|m.cells|)
      requires CellsStored(m, heap.owner) && CacheInv(m, Idle) && !heap.fault
      modifies `groups, `heap
      ensures heap == Heap(DropCells(old(heap).owner, gone), false)
      ensures forall pos :: pos in gone <==> pos in cache
      ensures |groups| == |m.groups|
      ensures forall g :: 0 <= g < |groups| ==> groups[g] == {} || (groups[g] == m.groups[g] && NoneOf(cache, g))
    {
      ghost var owner := heap.owner;
      gone := {};
      assert DropCells(owner, {}) == owner;
      for k := 0 to |cache|
        invariant |groups| == |m.groups| && cells == m.cells
        invariant heap == Heap(DropCells(owner, gone), false)
        invariant forall pos :: pos in gone <==> pos in cache[..k]
        invariant forall g :: 0 <= g < |groups| ==> groups[g] == {} || (groups[g] == m.groups[g] && NoneOf(cache[..k], g))
      {
        var pos := cache[k];
        GroupExists(pos, |m.cells|);
        assert CellDecoded(m, m.cache[k]);
        DropCell(m, owner, gone, pos);
        NoneOfStep(cache, k);
        groups := groups[Group(pos) := {}];
        heap := Delete(heap, cells[pos].value);
        gone := gone + {pos};
      }
      assert cache[..|cache|] == cache;
    }

    // Deletes the cells of one group, from the lowest bit up.
    method ClearGroup(ghost m: Memory, ghost owner: map<nat, Owner>, i: nat, ghost gone: set<nat>)
      returns (ghost gone': set<nat>)
      requires m.cells == cells && |groups| == |m.groups| && i < |groups| && groups[i] == m.groups[i]
      requires forall o :: o in m.groups[i] ==> BitExists(m, i, o)
      requires CellsStored(m, owner) && heap == Heap(DropCells(owner, gone), false)
      requires forall pos :: pos in gone ==> Group(pos) > i
      modifies `heap
      ensures heap == Heap(DropCells(owner, gone'), false)
      ensures forall pos :: pos in gone' <==> pos in gone || (Group(pos) == i && CellDecoded(m, pos))
    {
      gone' := gone;
      var bits := groups[i];
      while bits != {}
        invariant bits <= m.groups[i]
        invariant heap == Heap(DropCells(owner, gone'), false)
        invariant forall pos :: pos in gone' <==> pos in gone || (Group(pos) == i && Offset(pos) in m.groups[i] - bits)
        decreases |bits|
      {
        var offset := FindLSBSetNonZero(bits);
        var pos := Position(i, offset);
        assert BitExists(m, i, offset);
        GroupOf(i, offset);
        DropCell(m, owner, gone', pos);
        SameBitOnly(i, offset);
        heap := Delete(heap, cells[pos].value);
        gone' := gone' + {pos};
        bits := bits - {offset};
      }
    }

    // Deletes the decoded cells, which the bits list.
    method ClearScanned(ghost m: Memory) returns (ghost gone: set<nat>)
      requires m.cells == cells && m.groups == groups
      requires forall g, o :: 0 <= g < |m.groups| && o in m.groups[g] ==> BitExists(m, g, o)
      requires CellsStored(m, heap.owner) && !heap.fault
      modifies `groups, `heap
      ensures heap == Heap(DropCells(old(heap).owner, gone), false)
      ensures forall pos :: pos in gone <==> CellDecoded(m, pos)
      ensures |groups| == |m.groups| && forall g :: 0 <= g < |groups| ==> groups[g] == {}
    {
      ghost var owner := heap.owner;
      gone := {};
      assert DropCells(owner, {}) == owner;
      var i := |groups|;
      while i > 0
        invariant 0 <= i <= |groups| == |m.groups| && cells == m.cells
        invariant heap == Heap(DropCells(owner, gone), false)
        invariant forall pos :: pos in gone <==> Group(pos) >= i && CellDecoded(m, pos)
        invariant forall g :: 0 <= g < |groups| ==> groups[g] == if g < i then m.groups[g] else {}
      {
        i := i - 1;
        if groups[i] != {} {
          gone := ClearGroup(m, owner, i, gone);
          groups := groups[i := {}];
        }
      }
    }

    // Every decoded object is deleted exactly once, and every bit is cleared.
    method Minimize()
      requires Quiet(Mem(), heap.owner) && !heap.fault
      modifies `shapes, `groups, `cache, `heap
      ensures Mem() == Cleared(old(Mem())) && heap == Heap(map[], false)
    {
      ghost var m, owner := Mem(), heap.owner;
      ClearShapes();
      StillStored(m, owner);
      ghost var gone;
      if |cache| < |cells| / 2048 {
        gone := ClearCached(m);
        CacheIsAll(m, groups);
      } else {
        gone := ClearScanned(m);
      }
      NothingLeft(m, owner, gone);
      cache := [];
    }
  }

  lemma StillStored(m: Memory, owner: map<nat, Owner>)
    requires CellsStored(m, owner)
    ensures CellsStored(m, DropShapes(owner, |m.shapes|))
  {
    hide CellDecoded;
  }

  // A cache that is not full lists every decoded cell, so clearing their groups
  // clears all.
  lemma CacheIsAll(m: Memory, groups: seq<set<nat>>)
    requires CacheInv(m, Idle) && |m.cache| < MaxCellCacheSize(m)
    requires forall g, o :: 0 <= g < |m.groups| && o in m.groups[g] ==> BitExists(m, g, o)
    requires |groups| == |m.groups|
    requires forall g :: 0 <= g < |groups| ==> groups[g] == {} || (groups[g] == m.groups[g] && NoneOf(m.cache, g))
    ensures forall g :: 0 <= g < |groups| ==> groups[g] == {}
    ensures forall pos :: 0 <= pos < |m.cells| && CellDecoded(m, pos) ==> pos in m.cache
  {
    forall g | 0 <= g < |groups|
      ensures groups[g] == {}
    {
      if o :| o in groups[g] && groups[g] == m.groups[g] {
        assert BitExists(m, g, o);
        GroupOf(g, o);
        var pos := Position(g, o);
        assert CellDecoded(m, pos) && pos in m.cache;
      }
    }
  }

  lemma SameBitOnly(i: nat, offset: nat)
    requires offset < 64
    ensures forall pos :: Group(pos) == i && Offset(pos) == offset <==> pos == Position(i, offset)
  {
    GroupOf(i, offset);
    forall pos: nat | Group(pos) == i && Offset(pos) == offset
      ensures pos == Position(i, offset)
    {
      SameBit(pos, Position(i, offset));
    }
  }

  lemma {:induction false} HasLeast(bits: set<nat>, o: nat)
    requires o in bits
    ensures exists x :: x in bits && forall y :: y in bits ==> x <= y
  {
    if y :| y in bits && y < o {
      HasLeast(bits, y);
    }
  }

  method FindLSBSetNonZero(bits: set<nat>) returns (offset: nat)
    requires bits != {}
    ensures offset in bits && forall o :: o in bits ==> offset <= o
  {
    ghost var o :| o in bits;
    HasLeast(bits, o);
    offset :| offset in bits && forall o :: o in bits ==> offset <= o;
  }

  // No position of the list is in the group.
  ghost predicate NoneOf(positions: seq<nat>, g: nat)
  {
    forall i :: 0 <= i < |positions| ==> Group(positions[i]) != g
  }

  lemma NoneOfStep(cache: seq<nat>, k: nat)
    requires k < |cache|
    ensures forall g: nat :: NoneOf(cache[..k + 1], g) <==> NoneOf(cache[..k], g) && Group(cache[k]) != g
    ensures forall pos :: pos in cache[..k + 1] <==> pos in cache[..k] || pos == cache[k]
  {
    assert cache[..k + 1] == cache[..k] + [cache[k]];
    forall g: nat
      ensures NoneOf(cache[..k + 1], g) <==> NoneOf(cache[..k], g) && Group(cache[k]) != g
    {
      assert cache[..k + 1][k] == cache[k];
      forall i | 0 <= i < k
        ensures cache[..k + 1][i] == cache[..k][i]
      {
      }
    }
  }

  // ----- whole runs -----

  lemma InitHasInv(s: State)
    requires Init(s)
    ensures Inv(s)
  {
    hide Sized, Knows, PcExists;
    forall t | 0 <= t < |s.pcs|
      ensures Knows(s.data, s.mem, s.pcs[t]) && PcExists(s.data, s.pcs[t])
    {
      IdleKnows(s.data, s.mem);
    }
  }

  lemma MinimizeKeeps(s: State)
    requires Inv(s) && CanMinimize(s)
    ensures Inv(Minimized(s))
  {
    var s' := Minimized(s);
    assert s.lock.None?;
    assert Sized(s.data, s'.mem);
    hide Sized, PcExists;
    assert forall pos :: !CellDecoded(s'.mem, pos);
    forall t | 0 <= t < |s.pcs|
      ensures Knows(s.data, s'.mem, s.pcs[t])
    {
      IdleKnows(s.data, s'.mem);
    }
    hide CellDecoded, Knows;
    assert ShapeInv(s.data, s'.mem, map[]) by {
      hide CellInv, OwnerInv, CacheInv, SizeInv;
      forall id | 0 <= id < |s'.mem.shapes| && s'.mem.shapes[id].Decoded?
        ensures ShapeWritten(s.data, s'.mem, map[], id)
      {
        assert ShapeWritten(s.data, s.mem, s.heap.owner, id);
      }
    }
  }

  ghost predicate IsRun(run: seq<State>)
  {
    run != [] && Init(run[0]) && forall i :: 0 <= i < |run| - 1 ==> Next(run[i], run[i + 1])
  }

  lemma NextKeepsInv(s: State, s': State)
    requires Inv(s) && Next(s, s')
    ensures Inv(s')
  {
    hide Inv, Step, Minimized, Sized, PcExists;
    if t, key :| CanStep(s, t, key) && s' == Step(s, t, key) {
      StepKeepsInv(s, t, key);
    } else {
      MinimizeKeeps(s);
    }
  }

  // No interleaving of any number of threads reads uninitialized memory or
  // deletes an object twice.
  lemma {:induction false} RunKeepsInv(run: seq<State>, i: nat)
    requires IsRun(run) && i < |run|
    ensures Inv(run[i]) && !run[i].heap.fault
  {
    hide Init, Next;
    if i == 0 {
      InitHasInv(run[0]);
    } else {
      RunKeepsInv(run, i - 1);
      hide Inv;
      NextKeepsInv(run[i - 1], run[i]);
    }
    HasNoFault(run[i]);
  }

  lemma HasNoFault(s: State)
    requires Inv(s)
    ensures !s.heap.fault
  {
  }

  // All callers get the same object, which exists until the next Minimize; a cell
  // or shape that cannot be decoded is null for everybody.
  lemma CallersAgree(run: seq<State>, i: nat, key: Key, a: Option<nat>, b: Option<nat>)
    requires IsRun(run) && i < |run| && (key, a) in run[i].told && (key, b) in run[i].told
    ensures a == b && (a.Some? ==> a.value in run[i].heap.owner)
  {
    hide IsRun;
    RunKeepsInv(run, i);
    var s := run[i];
    hide CellDecoded, Knows, Owned;
    assert IsAnswer(s.data, s.mem, (key, a).0, (key, a).1) && IsAnswer(s.data, s.mem, (key, b).0, (key, b).1);
    match key
    case Cell(pos) =>
      assert a.Some? ==> CellWritten(s.data, s.mem, s.heap.owner, Holder(s.lock, s.pcs), pos);
    case Shape(id) =>
      assert ShapeWritten(s.data, s.mem, s.heap.owner, id);
  }

  // ----- what the objects are -----

  ghost predicate IsFrom(from: map<nat, Key>, obj: nat, key: Key)
  {
    obj in from && from[obj] == key
  }

  // What a thread is working on.
  function KeyOf(pc: Pc): Key
  {
    if pc.LoadShape? || pc.MakeShape? || pc.Exchange? || pc.FreeShape? then Shape(pc.id)
    else if pc.Idle? then Cell(0)
    else Cell(pc.pos)
  }

  ghost predicate OwnFrom(from: map<nat, Key>, pcs: seq<Pc>)
  {
    forall t :: 0 <= t < |pcs| && Own(pcs[t]).Some? ==> IsFrom(from, Own(pcs[t]).value, KeyOf(pcs[t]))
  }

  ghost predicate CellsFrom(from: map<nat, Key>, m: Memory)
  {
    forall pos :: 0 <= pos < |m.cells| && CellDecoded(m, pos) && m.cells[pos].Some? ==> IsFrom(from, m.cells[pos].value, Cell(pos))
  }

  ghost predicate ShapesFrom(from: map<nat, Key>, m: Memory)
  {
    forall id :: 0 <= id < |m.shapes| && m.shapes[id].Decoded? && m.shapes[id].shape.Some? ==>
                   IsFrom(from, m.shapes[id].shape.value, Shape(id))
  }

  // Every object in a slot or in the hands of a thread has been decoded from the
  // data that belong there.
  ghost predicate FromInv(s: State)
  {
    OwnFrom(s.from, s.pcs) && CellsFrom(s.from, s.mem) && ShapesFrom(s.from, s.mem)
  }

  lemma MakeKeepsFrom(s: State, t: nat, pc: Pc)
    requires Inv(s) && FromInv(s) && t < |s.pcs| && Own(pc) == Some(s.made)
    ensures FromInv(Goto(Make(s, t, KeyOf(pc)), t, pc))
  {
    hide CellDecoded, Knows, PcExists, Sized, IsAnswer, ToldInv, CacheInv, ThreadInv, LockInv, SizeInv, Owned;
    assert s.made !in s.heap.owner;
    forall pos | 0 <= pos < |s.mem.cells| && CellDecoded(s.mem, pos) && s.mem.cells[pos].Some?
      ensures s.mem.cells[pos].value != s.made
    {
      assert CellWritten(s.data, s.mem, s.heap.owner, Holder(s.lock, s.pcs), pos);
    }
    forall id | 0 <= id < |s.mem.shapes| && s.mem.shapes[id].Decoded? && s.mem.shapes[id].shape.Some?
      ensures s.mem.shapes[id].shape.value != s.made
    {
      assert ShapeWritten(s.data, s.mem, s.heap.owner, id);
    }
  }

  // A thread that goes on with the object that it has, or with none.
  lemma GotoKeepsOwn(from: map<nat, Key>, pcs: seq<Pc>, t: nat, pc: Pc)
    requires OwnFrom(from, pcs) && t < |pcs|
    requires Own(pc).Some? ==> Own(pc) == Own(pcs[t]) && KeyOf(pc) == KeyOf(pcs[t])
    ensures OwnFrom(from, pcs[t := pc])
  {
    hide IsFrom;
  }

  // The store of a group publishes what the thread has written.
  lemma StoreKeepsFrom(s: State, t: nat)
    requires Inv(s) && FromInv(s) && t < |s.pcs| && s.pcs[t].StoreGroup?
    requires PcExists(s.data, s.pcs[t]) && Sized(s.data, s.mem)
    ensures CellsFrom(s.from, Step(s, t, Cell(0)).mem)
  {
    assert Knows(s.data, s.mem, s.pcs[t]);
    var pos, m' := s.pcs[t].pos, Step(s, t, Cell(0)).mem;
    forall p | 0 <= p < |m'.cells| && CellDecoded(m', p) && m'.cells[p].Some?
      ensures IsFrom(s.from, m'.cells[p].value, Cell(p))
    {
      if !CellDecoded(s.mem, p) {
        SameBit(p, pos);
      }
    }
  }

  // All other steps leave what is in the slots, or put an own object there.
  lemma SlotsKeepFrom(s: State, t: nat, key: Key)
    requires Inv(s) && FromInv(s) && CanStep(s, t, key) && Step(s, t, key).from == s.from
    ensures CellsFrom(s.from, Step(s, t, key).mem) && ShapesFrom(s.from, Step(s, t, key).mem)
    ensures Step(s, t, key).pcs == s.pcs[t := Step(s, t, key).pcs[t]]
  {
    assert Knows(s.data, s.mem, s.pcs[t]);
    hide Inv, CellDecoded, IsFrom, IsAnswer;
    if s.pcs[t].StoreGroup? {
      StoreKeepsFrom(s, t);
    } else if s.pcs[t].WriteCell? {
      WriteKeepsFrom(s.from, s.mem, s.pcs[t].pos, s.pcs[t].obj);
    } else if s.pcs[t].Exchange? {
      assert Own(s.pcs[t]).Some? ==> IsFrom(s.from, Own(s.pcs[t]).value, KeyOf(s.pcs[t]));
    } else {
      SameSlotsKeepFrom(s.from, s.mem, Step(s, t, key).mem);
    }
  }

  lemma WriteKeepsFrom(from: map<nat, Key>, m: Memory, pos: nat, obj: nat)
    requires CellsFrom(from, m) && pos < |m.cells| && !CellDecoded(m, pos)
    ensures CellsFrom(from, m.(cells := m.cells[pos := Some(obj)]))
  {
    hide IsFrom;
  }

  lemma SameSlotsKeepFrom(from: map<nat, Key>, m: Memory, m': Memory)
    requires CellsFrom(from, m) && ShapesFrom(from, m)
    requires m'.cells == m.cells && m'.groups == m.groups && m'.shapes == m.shapes
    ensures CellsFrom(from, m') && ShapesFrom(from, m')
  {
    hide IsFrom;
  }

  lemma StepKeepsFrom(s: State, t: nat, key: Key)
    requires Inv(s) && FromInv(s) && CanStep(s, t, key)
    ensures FromInv(Step(s, t, key))
  {
    hide Inv, CellDecoded, IsFrom, OwnFrom, Knows, IsAnswer;
    var pc := Step(s, t, key).pcs[t];
    if s.pcs[t].DecodeCell? && s.data.decodes[s.pcs[t].pos] {
      MakeKeepsFrom(s, t, LockCells(s.pcs[t].pos, s.made));
    } else if s.pcs[t].MakeShape? && s.data.hasShape[s.pcs[t].id] {
      MakeKeepsFrom(s, t, Exchange(s.pcs[t].id, Some(s.made)));
    } else {
      GotoKeepsOwn(s.from, s.pcs, t, pc);
      SlotsKeepFrom(s, t, key);
    }
  }

  lemma MinimizeKeepsFrom(s: State)
    requires Inv(s) && FromInv(s) && CanMinimize(s)
    ensures FromInv(Minimized(s))
  {
    hide Inv, IsFrom;
  }

  lemma {:induction false} RunKeepsFrom(run: seq<State>, i: nat)
    requires IsRun(run) && i < |run|
    ensures FromInv(run[i])
  {
    hide Inv, Step, Minimized, Sized, PcExists, FromInv;
    if i == 0 {
      InitHasFrom(run[0]);
    } else {
      RunKeepsFrom(run, i - 1);
      RunKeepsInv(run, i - 1);
      var s, s' := run[i - 1], run[i];
      assert Next(s, run[i - 1 + 1]);
      if t, key :| CanStep(s, t, key) && s' == Step(s, t, key) {
        StepKeepsFrom(s, t, key);
      } else {
        MinimizeKeepsFrom(s);
      }
    }
  }

  lemma InitHasFrom(s: State)
    requires Init(s)
    ensures FromInv(s)
  {
    hide IsFrom, Sized;
  }

  predicate Decodable(d: Data, key: Key)
    requires KeyExists(d, key)
  {
    match key
    case Cell(pos) => d.decodes[pos]
    case Shape(id) => d.hasShape[id]
  }

  // A caller gets an object exactly if there is something to decode, and then one
  // that has been decoded from that cell or shape.
  ghost predicate AnswersKey(s: State, key: Key, answer: Option<nat>)
  {
    && KeyExists(s.data, key) && answer.Some? == Decodable(s.data, key)
    && (answer.Some? ==> IsFrom(s.from, answer.value, key))
  }

  lemma {:induction false} AnswersAreDecoded(run: seq<State>, i: nat, key: Key, a: Option<nat>)
    requires IsRun(run) && i < |run| && (key, a) in run[i].told
    ensures AnswersKey(run[i], key, a)
  {
    hide IsRun;
    RunKeepsInv(run, i);
    RunKeepsFrom(run, i);
    AnswerIsDecoded(run[i], key, a);
  }

  lemma AnswerIsDecoded(s: State, key: Key, a: Option<nat>)
    requires Inv(s) && FromInv(s) && (key, a) in s.told
    ensures AnswersKey(s, key, a)
  {
    hide CellDecoded, Knows, Owned, OwnerInv, CacheInv, LockInv, SizeInv, ThreadInv, CellInv, ShapeInv, OwnFrom, IsFrom;
    assert IsAnswer(s.data, s.mem, (key, a).0, (key, a).1);
  }

  // A step of a thread loses no decoded bit and takes back no answer.
  lemma NothingLost(s: State, t: nat, key: Key)
    requires Inv(s) && CanStep(s, t, key)
    ensures forall g :: 0 <= g < |s.mem.groups| && g < |Step(s, t, key).mem.groups| ==> s.mem.groups[g] <= Step(s, t, key).mem.groups[g]
    ensures |Step(s, t, key).mem.groups| == |s.mem.groups| && s.told <= Step(s, t, key).told
  {
    assert Knows(s.data, s.mem, s.pcs[t]);
    hide Inv;
  }

  // When no thread is in a call, every object that exists is in the one slot that
  // owns it: the copies of the threads that came second have been deleted.
  lemma NoLeak(run: seq<State>, i: nat)
    requires IsRun(run) && i < |run| && CanMinimize(run[i])
    ensures Quiet(run[i].mem, run[i].heap.owner)
  {
    hide IsRun, Quiet;
    RunKeepsInv(run, i);
    IdleIsQuiet(run[i]);
  }

  // How many steps a call can still take.
  function StepsLeft(pc: Pc): nat
  {
    match pc
    case Idle => 0
    case CheckCell(_) => 11
    case ReadCell(_) => 1
    case DecodeCell(_) => 10
    case LockCells(_, _) => 9
    case Recheck(_, _) => 8
    case ReadLocked(_, _) => 3
    case UnlockLoser(_, _, _) => 2
    case FreeLoser(_, _, _) => 1
    case WriteCell(_, _) => 5
    case LoadGroup(_, _) => 4
    case StoreGroup(_, _, _) => 3
    case PushCache(_, _) => 2
    case UnlockWinner(_, _) => 1
    case LoadShape(_) => 4
    case MakeShape(_) => 3
    case Exchange(_, _) => 2
    case FreeShape(_, _, _) => 1
  }

  // Some thread that is in a call can go on, and comes closer to its end.
  lemma NoDeadlock(run: seq<State>, i: nat, t: nat, key: Key) returns (u: nat)
    requires IsRun(run) && i < |run| && t < |run[i].pcs| && !run[i].pcs[t].Idle? && KeyExists(run[i].data, key)
    ensures u < |run[i].pcs| && !run[i].pcs[u].Idle? && CanStep(run[i], u, key)
    ensures StepsLeft(Step(run[i], u, key).pcs[u]) < StepsLeft(run[i].pcs[u])
  {
    hide IsRun;
    RunKeepsInv(run, i);
    u := if run[i].lock.Some? then run[i].lock.value else t;
    SomeoneCanStep(run[i], t, u, key);
    hide Inv;
    ComesCloser(run[i], u, key);
  }

  lemma SomeoneCanStep(s: State, t: nat, u: nat, key: Key)
    requires Inv(s) && t < |s.pcs| && !s.pcs[t].Idle? && KeyExists(s.data, key)
    requires u == if s.lock.Some? then s.lock.value else t
    ensures u < |s.pcs| && !s.pcs[u].Idle? && CanStep(s, u, key)
  {
    hide ThreadInv, ToldInv, CellInv, ShapeInv, OwnerInv, CacheInv, Sized, PcExists;
  }

  lemma ComesCloser(s: State, u: nat, key: Key)
    requires CanStep(s, u, key) && !s.pcs[u].Idle?
    ensures u < |Step(s, u, key).pcs| && StepsLeft(Step(s, u, key).pcs[u]) < StepsLeft(s.pcs[u])
  {
    hide CellDecoded;
  }
}
