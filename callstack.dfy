/**
  The bounded call stack of the CPU: sixteen 16-bit slots and a stack
  pointer. A push onto a full stack is dropped without a signal, and a
  pop from an empty stack yields the sentinel 0xFFFF.
 */
module CallStacks {
  import opened Bits

  /** Number of slots (`STACK_SIZE`). */
  const Capacity := 16

  /** What `pop` returns when nothing is on the stack. */
  const Underflow: Word := 0xFFFF

  /**
    The slots and the stack pointer as the CPU holds them. Slots at and
    above the pointer keep whatever was last written there.
   */
  datatype CallStack = CallStack(slots: seq<Word>, sp: nat)
  {
    predicate Valid()
    {
      |slots| == Capacity && sp <= Capacity
    }

    /** The live entries, bottom first. */
    function Contents(): (c: seq<Word>)
      requires Valid()
      ensures |c| == sp
    {
      slots[..sp]
    }
  }

  /** An empty stack whose slots are all zero, as in a zero-initialised CPU. */
  function Empty(): (s: CallStack)
    ensures s.Valid() && s.Contents() == []
    ensures forall i :: 0 <= i < Capacity ==> s.slots[i] == 0
  {
    CallStack(seq(Capacity, _ => 0), 0)
  }

  /** `push`: stores the value in the next free slot if there is one, else changes nothing. */
  function Push(s: CallStack, v: Word): (r: CallStack)
    requires s.Valid()
    ensures r.Valid()
    ensures s.sp < Capacity ==> r.Contents() == s.Contents() + [v]
    ensures s.sp < Capacity ==> forall i :: 0 <= i < Capacity && i != s.sp ==> r.slots[i] == s.slots[i]
    ensures s.sp == Capacity ==> r == s
  {
    if s.sp < Capacity then CallStack(s.slots[s.sp := v], s.sp + 1) else s
  }

  /**
    `pop`: removes and returns the top entry, or returns the sentinel and
    changes nothing when the stack is empty. The slots are never cleared.
   */
  function Pop(s: CallStack): (r: (CallStack, Word))
    requires s.Valid()
    ensures r.0.Valid() && r.0.slots == s.slots
    ensures s.sp > 0 ==> r.0.Contents() + [r.1] == s.Contents()
    ensures s.sp == 0 ==> r == (s, Underflow)
  {
    if s.sp > 0 then (s.(sp := s.sp - 1), s.slots[s.sp - 1]) else (s, Underflow)
  }

  /** A pop right after a push that was not dropped returns the pushed value and the old entries. */
  lemma PopAfterPush(s: CallStack, v: Word)
    requires s.Valid() && s.sp < Capacity
    ensures Pop(Push(s, v)).1 == v
    ensures Pop(Push(s, v)).0.Contents() == s.Contents()
  {
    var c := Push(s, v).Contents();
    assert c[..s.sp] == s.Contents();
  }

  /** `Capacity` successive pushes fill the stack, and every push after that is dropped. */
  lemma {:induction false} PushesSaturate(s: CallStack, vs: seq<Word>)
    requires s.Valid()
    ensures PushAll(s, vs).Valid()
    ensures PushAll(s, vs).sp == if s.sp + |vs| <= Capacity then s.sp + |vs| else Capacity
    ensures s.sp + |vs| <= Capacity ==> PushAll(s, vs).Contents() == s.Contents() + vs
    ensures s.sp + |vs| > Capacity ==> PushAll(s, vs).Contents() == s.Contents() + vs[..Capacity - s.sp]
    decreases |vs|
  {
    if vs != [] {
      var t := Push(s, vs[0]);
      PushesSaturate(t, vs[1..]);
      if s.sp < Capacity {
        assert t.Contents() == s.Contents() + [vs[0]];
        if s.sp + |vs| <= Capacity {
          assert s.Contents() + [vs[0]] + vs[1..] == s.Contents() + vs;
        } else {
          assert vs[1..][..Capacity - t.sp] == vs[1..Capacity - s.sp];
          assert s.Contents() + [vs[0]] + vs[1..Capacity - s.sp] == s.Contents() + vs[..Capacity - s.sp];
        }
      }
    }
  }

  /** A run of pushes, first element first, as a chain of nested calls performs them. */
  function PushAll(s: CallStack, vs: seq<Word>): (r: CallStack)
    requires s.Valid()
    ensures r.Valid()
    decreases |vs|
  {
    if vs == [] then s else PushAll(Push(s, vs[0]), vs[1..])
  }
}
