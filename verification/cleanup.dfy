/** cleanup.go: a nil-safe LIFO of teardown callbacks, playing the role of a
    `defer` block that outlives the function that filled it.

    A callback's effect is abstract; running one appends its label to a trace,
    so the order in which callbacks run is observable. */
module Cleanup {

  /** CleanupFn: a Go func value, possibly nil. */
  datatype CleanupFn = Nil | Task(tag: string)

  /** *CleanupStack: a nil pointer or a stack whose top is the LAST element. */
  datatype CleanupStack = NilStack | Stack(fns: seq<CleanupFn>)

  /** The zero value `CleanupStack{}`: a usable, empty stack. */
  const Empty: CleanupStack := Stack([])

  function Size(cs: CleanupStack): nat {
    if cs.NilStack? then 0 else |cs.fns|
  }

  /** Push; a nil pointer ignores it. */
  function Push(cs: CleanupStack, fn: CleanupFn): (r: CleanupStack)
    ensures cs.NilStack? ==> r == NilStack
    ensures cs.Stack? ==> r.Stack? && |r.fns| == |cs.fns| + 1 && r.fns[..|cs.fns|] == cs.fns && r.fns[|cs.fns|] == fn
  {
    match cs
    case NilStack => NilStack
    case Stack(fns) => Stack(fns + [fn])
  }

  /** Pop: the most recently pushed callback and the stack without it; Nil and
      an untouched stack when the pointer is nil or the stack is empty. */
  function Pop(cs: CleanupStack): (r: (CleanupStack, CleanupFn))
    ensures Size(cs) == 0 ==> r == (cs, Nil)
    ensures Size(cs) > 0 ==> r.0 == Stack(cs.fns[..|cs.fns| - 1]) && r.1 == cs.fns[|cs.fns| - 1]
    ensures Size(r.0) == if Size(cs) == 0 then 0 else Size(cs) - 1
  {
    match cs
    case NilStack => (NilStack, Nil)
    case Stack(fns) =>
      if |fns| == 0 then (cs, Nil)
      else (Stack(fns[..|fns| - 1]), fns[|fns| - 1])
  }

  /** Run: pop and call until a pop yields nil (the stack is empty or the popped
      entry is itself nil). Returns the stack left behind and the labels of the
      callbacks called, in the order they ran. */
  function Run(cs: CleanupStack): (r: (CleanupStack, seq<string>))
    ensures Size(r.0) <= Size(cs)
    ensures cs.NilStack? <==> r.0.NilStack?
    decreases Size(cs)
  {
    var (next, fn) := Pop(cs);
    match fn
    case Nil => (next, [])
    case Task(tag) =>
      var (left, trace) := Run(next);
      (left, [tag] + trace)
  }

  /** The labels of a run of callbacks, oldest first (Nil entries skipped). */
  function Labels(fns: seq<CleanupFn>): seq<string> {
    if |fns| == 0 then []
    else (if fns[0].Task? then [fns[0].tag] else []) + Labels(fns[1..])
  }

  function Reverse<T>(s: seq<T>): (r: seq<T>)
    ensures |r| == |s|
    ensures forall i :: 0 <= i < |s| ==> r[i] == s[|s| - 1 - i]
  {
    if |s| == 0 then [] else Reverse(s[1..]) + [s[0]]
  }

  predicate NoNil(fns: seq<CleanupFn>) {
    forall i :: 0 <= i < |fns| ==> fns[i].Task?
  }

  lemma {:induction false} LabelsSnoc(fns: seq<CleanupFn>, fn: CleanupFn)
    ensures Labels(fns + [fn]) == Labels(fns) + (if fn.Task? then [fn.tag] else [])
    decreases |fns|
  {
    if |fns| == 0 {
      assert fns + [fn] == [fn];
      assert [fn][1..] == [];
    } else {
      assert (fns + [fn])[1..] == fns[1..] + [fn];
      LabelsSnoc(fns[1..], fn);
    }
  }

  lemma ReverseSnoc<T>(s: seq<T>, x: T)
    ensures Reverse(s + [x]) == [x] + Reverse(s)
  {
  }

  /** Pushing onto a live stack and popping gives back the callback and the
      original stack; on a nil pointer both are no-ops and Pop yields nil. */
  lemma PushPop(cs: CleanupStack, fn: CleanupFn)
    ensures cs.Stack? ==> Pop(Push(cs, fn)) == (cs, fn)
    ensures cs.NilStack? ==> Pop(Push(cs, fn)) == (NilStack, Nil)
  {
    if cs.Stack? {
      assert (cs.fns + [fn])[..|cs.fns|] == cs.fns;
    }
  }

  /** With no nil entries, Run calls every callback exactly once, newest first,
      and leaves the stack empty. */
  lemma {:induction false} RunReversesPushes(fns: seq<CleanupFn>)
    requires NoNil(fns)
    ensures Run(Stack(fns)) == (Stack([]), Reverse(Labels(fns)))
    decreases |fns|
  {
    if |fns| > 0 {
      var init := fns[..|fns| - 1];
      var top := fns[|fns| - 1];
      assert fns == init + [top];
      RunReversesPushes(init);
      LabelsSnoc(init, top);
      ReverseSnoc(Labels(init), top.tag);
    }
  }

  /** Run stops at the first nil it pops: that entry is removed, everything
      pushed before it stays, and only the callbacks above it ran. */
  lemma {:induction false} RunStopsAtNil(older: seq<CleanupFn>, newer: seq<CleanupFn>)
    requires NoNil(newer)
    ensures Run(Stack(older + [Nil] + newer)) == (Stack(older), Reverse(Labels(newer)))
    decreases |newer|
  {
    var fns := older + [Nil] + newer;
    if |newer| == 0 {
      assert fns == older + [Nil];
      assert fns[..|fns| - 1] == older;
    } else {
      var init := newer[..|newer| - 1];
      var top := newer[|newer| - 1];
      assert newer == init + [top];
      assert fns[..|fns| - 1] == older + [Nil] + init;
      RunStopsAtNil(older, init);
      LabelsSnoc(init, top);
      ReverseSnoc(Labels(init), top.tag);
    }
  }

  /** Every operation on a nil pointer is a no-op. */
  lemma NilStackInert(fn: CleanupFn)
    ensures Push(NilStack, fn) == NilStack
    ensures Pop(NilStack) == (NilStack, Nil)
    ensures Run(NilStack) == (NilStack, [])
  {
  }

  /** The pointer a WrapRun closure captures; stacks live in a heap keyed by it,
      and a reference missing from the heap is a nil pointer. */
  type StackRef = nat
  type Heap = map<StackRef, CleanupStack>

  /** The closure WrapRun returns: it remembers the pointer, not the contents. */
  datatype Closure = WrapRunOf(owner: StackRef)

  function WrapRun(owner: StackRef): (f: Closure)
    ensures f.owner == owner
    ensures forall heap: Heap :: owner in heap ==>
      Invoke(f, heap) == (heap[owner := Run(heap[owner]).0], Run(heap[owner]).1)
  {
    WrapRunOf(owner)
  }

  /** Calling the closure: Run on whatever the pointer refers to now. */
  function Invoke(f: Closure, heap: Heap): (r: (Heap, seq<string>))
    ensures f.owner !in heap ==> r == (heap, [])
    ensures forall ref :: ref in heap && ref != f.owner ==> ref in r.0 && r.0[ref] == heap[ref]
    ensures r.0.Keys == heap.Keys
  {
    if f.owner in heap then
      var (left, trace) := Run(heap[f.owner]);
      (heap[f.owner := left], trace)
    else (heap, [])
  }

  /** A callback pushed after the closure was made still runs when it is
      called, and it runs first. */
  lemma WrapRunSeesLaterPushes(heap: Heap, owner: StackRef, fn: string)
    requires owner in heap && heap[owner].Stack?
    ensures var f := WrapRun(owner);
      var later := heap[owner := Push(heap[owner], Task(fn))];
      Invoke(f, later).1 == [fn] + Run(heap[owner]).1
  {
    PushPop(heap[owner], Task(fn));
  }
}
