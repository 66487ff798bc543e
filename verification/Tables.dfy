/** The two generational tables the submit mutex guards, as the code keeps them: fixed arrays
    updated in place. Each method is tied to the corresponding function of the state machine. */
module Tables {
  import opened Types
  import opened Ops
  import opened Core
  import opened Invariant

  /** The fixed-capacity operation slab. */
  class CompletionSlab {
    const slots: array<SlabSlot>
    var free: seq<nat>

    constructor (capacity: nat)
      ensures fresh(slots) && slots.Length == capacity
      ensures slots[..] == Empty(capacity, SlabSlot(0, None)) && free == Descending(capacity)
    {
      slots := new SlabSlot[capacity](_ => SlabSlot(0, None));
      var stack: seq<nat> := [];
      var i := capacity;
      while i > 0
        invariant 0 <= i <= capacity
        invariant stack + Descending(i) == Descending(capacity)
      {
        i := i - 1;
        assert Descending(i + 1) == [i] + Descending(i);
        stack := stack + [i];
      }
      free := stack;
    }

    method Contains(token: OpToken) returns (live: bool)
      requires token.slot < slots.Length
      ensures live == Core.Contains(slots[..], token)
    {
      live := slots[token.slot].payload.Some? && OpToken(token.slot, slots[token.slot].generation) == token;
    }

    method Reserve() returns (slot: Option<nat>)
      modifies this`free
      ensures slot == if old(free) == [] then None else Some(old(free)[|old(free)| - 1])
      ensures free == if old(free) == [] then [] else old(free)[..|old(free)| - 1]
    {
      if free == [] { return None; }
      slot := Some(free[|free| - 1]);
      free := free[..|free| - 1];
    }

    method Fill(slot: nat, e: Entry) returns (token: OpToken)
      requires slot < slots.Length && slots[slot].payload.None? && slots[slot].generation < U32_MAX
      modifies slots
      ensures slots[..] == Core.Fill(old(slots[..]), slot, e) && token == TokenAt(slots[..], slot)
    {
      slots[slot] := SlabSlot(slots[slot].generation + 1, Some(e));
      token := OpToken(slot, slots[slot].generation);
    }

    method Peek(slot: nat) returns (e: Entry)
      requires slot < slots.Length && slots[slot].payload.Some?
      ensures e == EntryAt(slots[..], slot)
    {
      e := slots[slot].payload.value;
    }

    /** Writes an occupied slot's payload back after an in-place change. */
    method Store(slot: nat, e: Entry)
      requires slot < slots.Length && slots[slot].payload.Some?
      modifies slots
      ensures slots[..] == SetEntry(old(slots[..]), slot, e)
    {
      slots[slot] := slots[slot].(payload := Some(e));
    }

    method Reclaim(slot: nat) returns (token: OpToken, e: Entry)
      requires slot < slots.Length && slots[slot].payload.Some?
      modifies this`free, slots
      ensures slots[..] == Vacate(old(slots[..]), slot) && free == old(free) + [slot]
      ensures token == TokenAt(old(slots[..]), slot) && e == EntryAt(old(slots[..]), slot)
    {
      token := OpToken(slot, slots[slot].generation);
      e := slots[slot].payload.value;
      slots[slot] := slots[slot].(payload := None);
      free := free + [slot];
    }
  }

  /** The resized table: refused if it would cut off a slot that was ever used. */
  function Resized(files: seq<FileSlot>, capacity: nat): (r: Option<seq<FileSlot>>) {
    var copied := if capacity < |files| then capacity else |files|;
    if exists f | copied <= f < |files| :: files[f].generation != 0 || !files[f].state.Free? then None
    else Some(files[..copied] + Empty(capacity - copied, FileSlot(0, Free, 0)))
  }

  /** A successful resize preserves both answers for every id ever issued, so it is refused whenever
      an issued id's slot would be lost. */
  lemma ResizeKeepsIdentity(files: seq<FileSlot>, capacity: nat, id: FileId)
    requires id.slot < |files| && 1 <= id.generation <= files[id.slot].generation
    ensures Resized(files, capacity).Some? ==>
              && id.slot < capacity == |Resized(files, capacity).value|
              && IsLive(Resized(files, capacity).value, id) == IsLive(files, id)
              && IsClosed(Resized(files, capacity).value, id) == IsClosed(files, id)
    ensures capacity <= id.slot ==> Resized(files, capacity).None?
  {
  }

  /** The generational file table with deferred close. */
  class FileTable {
    const slots: array<FileSlot>

    constructor (capacity: nat)
      ensures fresh(slots) && slots[..] == Empty(capacity, FileSlot(0, Free, 0))
    {
      slots := new FileSlot[capacity](_ => FileSlot(0, Free, 0));
    }

    /** Takes the first free or closed slot under the next generation. */
    method Open() returns (id: Option<FileId>)
      requires var i := FirstReusable(slots[..], 0); i < slots.Length ==> slots[i].generation < U32_MAX
      modifies slots
      ensures var before, i := old(slots[..]), FirstReusable(old(slots[..]), 0);
              if i == |before| then id.None? && slots[..] == before
              else slots[..] == OpenFile(before, i) && id == Some(IdAt(slots[..], i))
    {
      for index := 0 to slots.Length
        invariant slots[..] == old(slots[..])
        invariant FirstReusable(slots[..], 0) == FirstReusable(slots[..], index)
      {
        if slots[index].state.Free? || slots[index].state.Closed? {
          slots[index] := FileSlot(slots[index].generation + 1, FileState.Open, 0);
          return Some(FileId(index, slots[index].generation));
        }
      }
      id := None;
    }

    method IsLive(id: FileId) returns (live: bool)
      requires id.slot < slots.Length
      ensures live == Core.IsLive(slots[..], id)
    {
      live := slots[id.slot].generation == id.generation && slots[id.slot].state.Open?;
    }

    method IsClosed(id: FileId) returns (closed: bool)
      requires id.slot < slots.Length
      ensures closed == Core.IsClosed(slots[..], id)
    {
      var slot := slots[id.slot];
      closed := slot.generation > id.generation || (slot.generation == id.generation && slot.state.Closed?);
    }

    method TotalInflight() returns (total: nat)
      ensures total == Core.TotalInflight(slots[..])
    {
      total := 0;
      var i := slots.Length;
      while i > 0
        invariant 0 <= i <= slots.Length
        invariant total == Core.TotalInflight(slots[i..])
      {
        i := i - 1;
        assert slots[i..][1..] == slots[i + 1..];
        total := total + slots[i].inflight;
      }
      assert slots[0..] == slots[..];
    }

    method OnSubmit(id: FileId)
      requires Current(slots[..], id)
      modifies slots
      ensures slots[..] == Core.OnSubmit(old(slots[..]), id)
    {
      slots[id.slot] := slots[id.slot].(inflight := slots[id.slot].inflight + 1);
    }

    /** Counts a completion and says whether the file is now due for retirement. */
    method OnComplete(id: FileId) returns (due: bool)
      requires CanComplete(slots[..], id)
      modifies slots
      ensures slots[..] == Core.OnComplete(old(slots[..]), id) && due == Drained(slots[..], id)
    {
      slots[id.slot] := slots[id.slot].(inflight := slots[id.slot].inflight - 1);
      due := slots[id.slot].inflight == 0 && slots[id.slot].state.Closing?;
    }

    method FinishRetire(id: FileId)
      requires Drained(slots[..], id)
      modifies slots
      ensures slots[..] == SetState(old(slots[..]), id, Closed)
    {
      slots[id.slot] := slots[id.slot].(state := Closed);
    }

    method Close(id: FileId) returns (due: bool)
      requires Core.IsLive(slots[..], id)
      modifies slots
      ensures slots[..] == SetState(old(slots[..]), id, Closing) && due == Drained(slots[..], id)
    {
      slots[id.slot] := slots[id.slot].(state := Closing);
      due := slots[id.slot].inflight == 0;
    }

    method AbortOpen(id: FileId)
      requires Core.IsLive(slots[..], id) && slots[id.slot].inflight == 0
      modifies slots
      ensures slots[..] == SetState(old(slots[..]), id, Free)
    {
      slots[id.slot] := slots[id.slot].(state := Free);
    }

    /** A copy of the table at another capacity, or nothing if that would lose a used slot. */
    method TryResized(capacity: nat) returns (r: Option<FileTable>)
      ensures r.Some? == Resized(slots[..], capacity).Some?
      ensures r.Some? ==>
              fresh(r.value) && fresh(r.value.slots) && r.value.slots[..] == Resized(slots[..], capacity).value
    {
      var copied := if capacity < slots.Length then capacity else slots.Length;
      var table := new FileTable(capacity);
      for index := 0 to copied
        invariant forall k | 0 <= k < index :: table.slots[k] == slots[k]
        invariant forall k | index <= k < capacity :: table.slots[k] == FileSlot(0, Free, 0)
      {
        table.slots[index] := slots[index];
      }
      for index := copied to slots.Length
        invariant forall f | copied <= f < index :: slots[f].generation == 0 && slots[f].state.Free?
      {
        if slots[index].generation != 0 || !slots[index].state.Free? { return None; }
      }
      assert table.slots[..copied] == slots[..copied];
      assert table.slots[copied..] == Empty(capacity - copied, FileSlot(0, Free, 0));
      assert table.slots[..] == table.slots[..copied] + table.slots[copied..];
      r := Some(table);
    }
  }
}
