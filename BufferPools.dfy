/** What getBuffer and returnBuffer do to the downloader's fixed row of
    buffer slots, stated over the sequence of slots (None is a null slot). */
module BufferPools {
  import opened Wrappers

  /** The length of the slot array. */
  const PoolSlots: nat := 4

  /** The length of a freshly allocated download buffer. */
  const BufferSize: nat := 2048

  /** The index of the lowest filled slot, or |slots| when every slot is empty. */
  function FirstFilled<T>(slots: seq<Option<T>>): (i: nat)
    ensures i <= |slots|
    ensures forall j :: 0 <= j < i ==> slots[j].None?
    ensures i < |slots| ==> slots[i].Some?
  {
    if slots == [] then 0
    else if slots[0].Some? then 0
    else 1 + FirstFilled(slots[1..])
  }

  /** The index of the lowest empty slot, or |slots| when every slot is filled. */
  function FirstEmpty<T>(slots: seq<Option<T>>): (i: nat)
    ensures i <= |slots|
    ensures forall j :: 0 <= j < i ==> slots[j].Some?
    ensures i < |slots| ==> slots[i].None?
  {
    if slots == [] then 0
    else if slots[0].None? then 0
    else 1 + FirstEmpty(slots[1..])
  }

  /** The number of buffers the slots hold. */
  function Held<T>(slots: seq<Option<T>>): (n: nat)
    ensures n <= |slots|
    ensures n == 0 <==> FirstFilled(slots) == |slots|
    ensures n == |slots| <==> FirstEmpty(slots) == |slots|
  {
    if slots == [] then 0
    else (if slots[0].Some? then 1 else 0) + Held(slots[1..])
  }

  /** getBuffer's effect: the buffer it takes from the lowest filled slot
      (None: every slot is empty and it allocates) and the slots afterwards. */
  function Take<T>(slots: seq<Option<T>>): (Option<T>, seq<Option<T>>) {
    var i := FirstFilled(slots);
    if i < |slots| then (slots[i], slots[i := None]) else (None, slots)
  }

  /** returnBuffer's effect on a non-null buffer: it goes into the lowest empty
      slot, or is dropped when every slot is filled. */
  function Put<T>(slots: seq<Option<T>>, buffer: T): seq<Option<T>> {
    var i := FirstEmpty(slots);
    if i < |slots| then slots[i := Some(buffer)] else slots
  }

  /** Overwriting one slot changes the count by what left and what came in. */
  lemma {:induction false} HeldUpdate<T>(slots: seq<Option<T>>, i: nat, x: Option<T>)
    requires i < |slots|
    ensures Held(slots[i := x]) == Held(slots) - (if slots[i].Some? then 1 else 0) + (if x.Some? then 1 else 0)
  {
    if i > 0 {
      assert slots[i := x][1..] == slots[1..][i - 1 := x];
      HeldUpdate(slots[1..], i - 1, x);
    }
  }

  /** Acquiring takes the buffer in the lowest filled slot and empties exactly
      that slot; with every slot empty nothing changes and the caller allocates. */
  lemma TakeSpec<T>(slots: seq<Option<T>>)
    ensures var (taken, after) := Take(slots);
            && |after| == |slots|
            && (taken.None? <==> Held(slots) == 0)
            && (taken.None? ==> after == slots)
            && (taken.Some? ==> var i := FirstFilled(slots);
                  && taken == slots[i]
                  && (forall j :: 0 <= j < i ==> slots[j].None?)
                  && after[i].None?
                  && (forall j :: 0 <= j < |slots| && j != i ==> after[j] == slots[j]))
            && Held(after) == Held(slots) - (if taken.Some? then 1 else 0)
  {
    var i := FirstFilled(slots);
    if i < |slots| {
      HeldUpdate(slots, i, None);
    }
  }

  /** Releasing fills the lowest empty slot and nothing else; with every slot
      filled the buffer is dropped. The pool never holds more than its slots. */
  lemma PutSpec<T>(slots: seq<Option<T>>, buffer: T)
    ensures var after := Put(slots, buffer);
            && |after| == |slots|
            && Held(after) <= |after|
            && (Held(slots) == |slots| ==> after == slots)
            && (Held(slots) < |slots| ==> var i := FirstEmpty(slots);
                  && after[i] == Some(buffer)
                  && (forall j :: 0 <= j < i ==> slots[j].Some?)
                  && (forall j :: 0 <= j < |slots| && j != i ==> after[j] == slots[j])
                  && Held(after) == Held(slots) + 1)
  {
    var i := FirstEmpty(slots);
    if i < |slots| {
      HeldUpdate(slots, i, Some(buffer));
    }
  }

  /** After any release the next acquire reuses a held buffer instead of
      allocating (a full pool drops the released one but still has others);
      from an empty pool it gets back exactly the released buffer and leaves
      the pool empty again. */
  lemma ReleaseThenAcquireReuses<T>(slots: seq<Option<T>>, buffer: T)
    requires |slots| > 0
    ensures Take(Put(slots, buffer)).0.Some?
    ensures Held(slots) == 0 ==> Take(Put(slots, buffer)) == (Some(buffer), slots)
  {
    PutSpec(slots, buffer);
    TakeSpec(Put(slots, buffer));
    if Held(slots) == 0 {
      assert FirstEmpty(slots) == 0 by {
        assert slots[0].None?;
      }
      var after := Put(slots, buffer);
      assert FirstFilled(after) == 0;
      assert after[0 := None] == slots;
    }
  }

  /** A download that takes a buffer and gives it back leaves the pool as
      full as it was, or holding the one buffer it allocated: no buffer the
      pool held is lost. */
  lemma TakeThenPutKeepsBuffers<T>(slots: seq<Option<T>>, spare: T)
    requires |slots| > 0
    ensures var (taken, after) := Take(slots);
            var b := if taken.Some? then taken.value else spare;
            Held(Put(after, b)) == if Held(slots) == 0 then 1 else Held(slots)
  {
    TakeSpec(slots);
    var (taken, after) := Take(slots);
    var b := if taken.Some? then taken.value else spare;
    PutSpec(after, b);
  }
}
