/**
 The ring buffer `tCircularFifo`: elements sit at modular positions of a fixed
 array, and the ring behaves as a plain queue.
 */
module CircularFifos {

  /** Where the i-th element of a ring lies. */
  function Slot(head: nat, i: nat, capacity: nat): nat
    requires capacity > 0
  {
    (head + i) % capacity
  }

  ghost predicate InRange(head: nat, size: nat, capacity: nat) {
    size <= capacity && (head < capacity || head == 0)
  }

  lemma SlotWraps(head: nat, i: nat, capacity: nat)
    requires head < capacity && i <= capacity
    ensures Slot(head, i, capacity) == if head + i < capacity then head + i else head + i - capacity
  {
    var x := head + i;
    if x < capacity {
      Quotient(x, capacity, 0);
    } else {
      Quotient(x, capacity, 1);
    }
  }

  lemma Quotient(x: nat, n: nat, q: nat)
    requires n > 0 && q * n <= x < (q + 1) * n
    ensures x % n == x - q * n
  {
    var d := x / n;
    assert x == d * n + x % n;
    assert (d - q) * n == d * n - q * n;
    Multiples(d - q, n);
  }

  lemma Multiples(k: int, n: int)
    requires n >= 0
    ensures k == 0 || k * n >= n || k * n <= -n
  {
    if k >= 1 {
      assert k * n == n + (k - 1) * n;
    } else if k <= -1 {
      assert k * n == -n + (k + 1) * n;
    }
  }

  /** The queue a ring stands for. */
  ghost function Window<T>(buffer: seq<T>, head: nat, size: nat): seq<T>
    requires InRange(head, size, |buffer|)
  {
    seq(size, i requires 0 <= i < size => buffer[Slot(head, i, |buffer|)])
  }

  lemma PushAppends<T>(buffer: seq<T>, head: nat, size: nat, x: T)
    requires InRange(head, size, |buffer|) && size < |buffer|
    ensures Slot(head, size, |buffer|) < |buffer|
    ensures Window(buffer[Slot(head, size, |buffer|) := x], head, size + 1) == Window(buffer, head, size) + [x]
  {
    var n := |buffer|;
    SlotWraps(head, size, n);
    forall i | 0 <= i < size
      ensures Slot(head, i, n) != Slot(head, size, n)
    {
      SlotWraps(head, i, n);
    }
  }

  lemma PopDropsFirst<T>(buffer: seq<T>, head: nat, size: nat)
    requires InRange(head, size, |buffer|) && size > 0
    ensures InRange(Slot(head, 1, |buffer|), size - 1, |buffer|)
    ensures Window(buffer, Slot(head, 1, |buffer|), size - 1) == Window(buffer, head, size)[1..]
  {
    var n := |buffer|;
    SlotWraps(head, 1, n);
    var head' := Slot(head, 1, n);
    forall i | 0 <= i < size - 1
      ensures Slot(head', i, n) == Slot(head, i + 1, n)
    {
      SlotWraps(head', i, n);
      SlotWraps(head, i + 1, n);
    }
  }

  /** The first element, and the place it lies at until it is overwritten. */
  lemma FrontIsFirst<T>(buffer: seq<T>, head: nat, size: nat)
    requires InRange(head, size, |buffer|) && size > 0
    ensures Slot(head, 0, |buffer|) == head
    ensures Window(buffer, head, size)[0] == buffer[head]
  {
    SlotWraps(head, 0, |buffer|);
  }

  class CircularFifo<T(0)> {
    var buffer: array<T>
    var head: nat
    var size: nat

    ghost predicate Valid()
      reads this
    {
      InRange(head, size, buffer.Length)
    }

    ghost function Contents(): seq<T>
      requires Valid()
      reads this, buffer
    {
      Window(buffer[..], head, size)
    }

    constructor (capacity: nat)
      ensures Valid() && Contents() == [] && buffer.Length == capacity && fresh(buffer)
    {
      buffer := new T[capacity];
      head, size := 0, 0;
    }

    /** Empties the ring and changes its capacity; old elements may linger but are out of reach. */
    method Reallocate(capacity: nat)
      requires Valid()
      modifies this
      ensures Valid() && Contents() == [] && buffer.Length == capacity && fresh(buffer)
    {
      Clear();
      buffer := new T[capacity];
    }

    /** The source asserts that there is room. */
    method Push(x: T)
      requires Valid() && size < buffer.Length
      modifies `size, buffer
      ensures Valid() && Contents() == old(Contents()) + [x]
    {
      PushAppends(buffer[..], head, size, x);
      ghost var was := buffer[..];
      buffer[Slot(head, size, buffer.Length)] := x;
      assert buffer[..] == was[Slot(head, size, buffer.Length) := x];
      size := size + 1;
    }

    /** The position of the first element: what the reference returned by `front` refers to. */
    method Front() returns (place: nat)
      requires Valid() && size > 0
      ensures place < buffer.Length && buffer[place] == Contents()[0]
    {
      FrontIsFirst(buffer[..], head, size);
      place := Slot(head, 0, buffer.Length);
    }

    /** Removes the first element without touching the array, so a reference to it stays good. */
    method Pop()
      requires Valid() && size > 0
      modifies `head, `size
      ensures Valid() && Contents() == old(Contents())[1..]
    {
      PopDropsFirst(buffer[..], head, size);
      head := Slot(head, 1, buffer.Length);
      size := size - 1;
    }

    method Clear()
      requires Valid()
      modifies `head, `size
      ensures Valid() && Contents() == [] && head == 0 && size == 0
    {
      head, size := 0, 0;
    }
  }

  // ---------------------------------------------------------------- whole runs

  datatype Ring<T> = Ring(buffer: seq<T>, head: nat, size: nat)

  /** `Renew` is a reallocation; it says what the new array happens to hold. */
  datatype RingOp<T> = DoPush(x: T) | DoPop | DoClear | DoRenew(memory: seq<T>)

  ghost predicate Allowed<T>(r: Ring<T>, op: RingOp<T>) {
    match op
    case DoPush(_) => r.size < |r.buffer|
    case DoPop => r.size > 0
    case _ => true
  }

  ghost function Apply<T>(r: Ring<T>, op: RingOp<T>): Ring<T>
    requires InRange(r.head, r.size, |r.buffer|) && Allowed(r, op)
  {
    match op
    case DoPush(x) =>
      PushAppends(r.buffer, r.head, r.size, x);
      r.(buffer := r.buffer[Slot(r.head, r.size, |r.buffer|) := x], size := r.size + 1)
    case DoPop => r.(head := Slot(r.head, 1, |r.buffer|), size := r.size - 1)
    case DoClear => r.(head := 0, size := 0)
    case DoRenew(memory) => Ring(memory, 0, 0)
  }

  ghost function ApplyToQueue<T>(q: seq<T>, op: RingOp<T>): seq<T> {
    match op
    case DoPush(x) => q + [x]
    case DoPop => if q == [] then [] else q[1..]
    case _ => []
  }

  ghost predicate RingRun<T>(r: Ring<T>, ops: seq<RingOp<T>>)
    decreases |ops|
  {
    && InRange(r.head, r.size, |r.buffer|)
    && (ops == [] || (Allowed(r, ops[0]) && RingRun(Apply(r, ops[0]), ops[1..])))
  }

  ghost function RingAfter<T>(r: Ring<T>, ops: seq<RingOp<T>>): Ring<T>
    requires RingRun(r, ops)
    decreases |ops|
  {
    if ops == [] then r else RingAfter(Apply(r, ops[0]), ops[1..])
  }

  ghost function QueueAfter<T>(q: seq<T>, ops: seq<RingOp<T>>): seq<T>
    decreases |ops|
  {
    if ops == [] then q else QueueAfter(ApplyToQueue(q, ops[0]), ops[1..])
  }

  lemma StepRefines<T>(r: Ring<T>, op: RingOp<T>)
    requires InRange(r.head, r.size, |r.buffer|) && Allowed(r, op)
    ensures var r' := Apply(r, op);
            && InRange(r'.head, r'.size, |r'.buffer|)
            && Window(r'.buffer, r'.head, r'.size) == ApplyToQueue(Window(r.buffer, r.head, r.size), op)
  {
    match op
    case DoPush(x) => PushAppends(r.buffer, r.head, r.size, x);
    case DoPop => PopDropsFirst(r.buffer, r.head, r.size);
    case _ =>
  }

  /** A ring of any capacity, driven by any run, holds exactly what a plain queue would hold. */
  lemma {:induction false} RingIsQueue<T>(r: Ring<T>, ops: seq<RingOp<T>>)
    requires RingRun(r, ops)
    ensures var r' := RingAfter(r, ops);
            && InRange(r'.head, r'.size, |r'.buffer|)
            && Window(r'.buffer, r'.head, r'.size) == QueueAfter(Window(r.buffer, r.head, r.size), ops)
    decreases |ops|
  {
    if ops != [] {
      StepRefines(r, ops[0]);
      RingIsQueue(Apply(r, ops[0]), ops[1..]);
    }
  }
}
