/** The LIFO container of main.py (`Stack`), as an immutable value. */
module LifoStack {
  import opened Wrappers

  /** A stack over a sequence: the last element of `items` is the top. */
  datatype Stack<T> = Stack(items: seq<T>) {

    /** The element count (the `length` property). */
    function Length(): nat {
      |items|
    }

    /** Appends `x`; popping right after gives back `x` and the prior stack. */
    function Push(x: T): (r: Stack<T>)
      ensures r.Length() == Length() + 1
      ensures r.Pop() == (Some(x), this)
    {
      Stack(items + [x])
    }

    /** Removes and returns the top element, or `None` on an empty stack,
        which is then left as it was. Pushing the popped element back
        restores the stack. */
    function Pop(): (r: (Option<T>, Stack<T>))
      ensures items == [] <==> r.0.None?
      ensures r.0.None? ==> r.1 == this
      ensures r.0.Some? ==> r.1.Length() == Length() - 1 && r.1.items + [r.0.value] == items
    {
      if items == [] then (None, this)
      else (Some(items[|items| - 1]), Stack(items[..|items| - 1]))
    }

    /** The element `Pop` would return, without removing it. */
    function Peek(): (r: Option<T>)
      ensures r == Pop().0
      ensures r.None? <==> Length() == 0
    {
      if items == [] then None else Some(items[Length() - 1])
    }

    /** Iteration (`__iter__`): the elements oldest-first. */
    function Elements(): seq<T> {
      items
    }
  }

  function Empty<T>(): Stack<T> {
    Stack([])
  }

  /** A value pushed on an empty stack is its only element. */
  lemma PushOnEmpty<T>(x: T)
    ensures Empty<T>().Push(x).Elements() == [x]
  {
  }

  /** Pushes the elements of `xs` one by one, first element first. */
  function PushAll<T>(s: Stack<T>, xs: seq<T>): (r: Stack<T>)
    ensures r.Elements() == s.Elements() + xs
    ensures r.Length() == s.Length() + |xs|
    decreases |xs|
  {
    if xs == [] then s else PushAll(s.Push(xs[0]), xs[1..])
  }

  /** The elements of `s` in the order repeated `Pop` calls return them. */
  function Drain<T>(s: Stack<T>): (r: seq<T>)
    ensures |r| == s.Length()
    decreases s.Length()
  {
    match s.Pop()
    case (None, _) => []
    case (Some(x), rest) => [x] + Drain(rest)
  }

  /** Reference definition of reversal, independent of the stack. */
  function Reverse<T>(xs: seq<T>): (r: seq<T>)
    ensures |r| == |xs|
    ensures forall k :: 0 <= k < |xs| ==> r[k] == xs[|xs| - 1 - k]
  {
    if xs == [] then [] else Reverse(xs[1..]) + [xs[0]]
  }

  /** Draining a stack yields its iteration order reversed: popping is
      newest-first while iteration is oldest-first. */
  lemma {:induction false} DrainIsReverse<T>(s: Stack<T>)
    ensures Drain(s) == Reverse(s.Elements())
    decreases s.Length()
  {
    match s.Pop()
    case (None, _) =>
    case (Some(x), rest) =>
      DrainIsReverse(rest);
      assert s.items == rest.items + [x];
      ReverseSnoc(rest.items, x);
  }

  /** Reversing moves a last element to the front. */
  lemma ReverseSnoc<T>(ys: seq<T>, x: T)
    ensures Reverse(ys + [x]) == [x] + Reverse(ys)
  {
    var r := Reverse(ys + [x]);
    var r' := [x] + Reverse(ys);
    assert |r| == |r'|;
    forall k | 0 <= k < |r|
      ensures r[k] == r'[k]
    {
      if k > 0 {
        assert r'[k] == Reverse(ys)[k - 1] == ys[|ys| - k];
      }
    }
  }

  /** Pushing a sequence and draining gives it back in reverse order. */
  lemma DrainAfterPushes<T>(xs: seq<T>)
    ensures Drain(PushAll(Empty(), xs)) == Reverse(xs)
  {
    DrainIsReverse(PushAll(Empty<T>(), xs));
  }

  /** Pushing then popping is the identity, and peeking does not change
      what the next pop returns. */
  lemma PushPopPeek<T>(s: Stack<T>, x: T)
    ensures s.Push(x).Peek() == Some(x)
    ensures s.Push(x).Pop().1 == s
    ensures Empty<T>().Pop() == (None, Empty<T>())
    ensures Empty<T>().Peek() == None
  {
  }
}
