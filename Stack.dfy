/**
 * The array-backed last-in-first-out container of Stack.hpp. `data` is the
 * buffer, `capacity` its recorded size and `tos` the number of elements in
 * use; a push onto a full stack first doubles the buffer.
 */
module Stacks {

  const InitialCapacity: nat := 8

  class Stack<T(0)> {
    var capacity: nat
    var data: array<T>
    var tos: int

    /** The object invariant: the buffer has the recorded capacity and holds at least the used prefix. */
    ghost predicate Valid()
      reads this
    {
      data.Length == capacity && 0 < capacity && 0 <= tos <= capacity
    }

    /** The elements in the stack, bottom first. */
    ghost function Contents(): (s: seq<T>)
      reads this, data
      requires Valid()
      ensures |s| == tos
    {
      data[..tos]
    }

    /** A new stack is empty and has room for eight elements. */
    constructor ()
      ensures Valid() && fresh(data)
      ensures capacity == InitialCapacity && tos == 0 && Contents() == []
    {
      capacity := InitialCapacity;
      data := new T[InitialCapacity];
      tos := 0;
    }

    /** Moves the elements into a buffer twice as large, in order. */
    method Resize()
      requires Valid()
      modifies this
      ensures Valid() && fresh(data)
      ensures capacity == 2 * old(capacity) && tos == old(tos)
      ensures Contents() == old(Contents())
    {
      var grown := new T[capacity * 2];
      for i := 0 to tos
        invariant Valid() && tos == old(tos) && data == old(data)
        invariant grown[..i] == data[..i]
      {
        grown[i] := data[i];
      }
      assert grown[..tos] == data[..tos];
      capacity := capacity * 2;
      data := grown;
    }

    /** True exactly when every slot of the buffer is in use. */
    method IsFull() returns (full: bool)
      requires Valid()
      ensures full <==> |Contents()| == data.Length
    {
      full := tos == capacity;
    }

    /** True exactly when the stack holds nothing. */
    method IsEmpty() returns (empty: bool)
      requires Valid()
      ensures empty <==> Contents() == []
    {
      empty := tos == 0;
    }

    /** The number of elements. */
    method Size() returns (n: nat)
      requires Valid()
      ensures n == |Contents()|
    {
      n := tos;
    }

    /**
     * Puts `element` on top: the size grows by one, the elements below are
     * untouched, and a full buffer is doubled first.
     */
    method Push(element: T)
      requires Valid()
      modifies this, data
      ensures Valid() && (data == old(data) || fresh(data))
      ensures Contents() == old(Contents()) + [element]
      ensures capacity == if old(tos) == old(capacity) then 2 * old(capacity) else old(capacity)
    {
      var full := IsFull();
      if full {
        Resize();
      }
      data[tos] := element;
      tos := tos + 1;
    }

    /** Removes and returns the most recently pushed element; the source does not check for emptiness. */
    method Pop() returns (top: T)
      requires Valid() && tos > 0
      modifies this
      ensures Valid() && data == old(data) && capacity == old(capacity)
      ensures top == old(Contents())[|old(Contents())| - 1]
      ensures Contents() == old(Contents())[..|old(Contents())| - 1]
    {
      tos := tos - 1;
      top := data[tos];
    }

    /** The element `Pop` would return, leaving the stack as it is. */
    method Top() returns (top: T)
      requires Valid() && tos > 0
      ensures top == Contents()[|Contents()| - 1]
    {
      top := data[tos - 1];
    }
  }

  /** Pushing two values and popping twice gives them back in reverse order and restores the stack. */
  method LastInFirstOut<T(0)>(s: Stack<T>, x: T, y: T) returns (first: T, second: T)
    requires s.Valid()
    modifies s, s.data
    ensures s.Valid() && s.Contents() == old(s.Contents())
    ensures first == y && second == x
  {
    s.Push(x);
    s.Push(y);
    first := s.Pop();
    second := s.Pop();
  }
}
