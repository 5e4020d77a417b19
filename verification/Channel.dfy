/** A buffered Go channel under non-blocking use: an array filled in a circle. */
module Channel {

  import opened Option

  class Channel<T(0)> {
    const cap: nat
    const data: array<T>
    var start: nat
    var len: nat
    ghost var contents: seq<T>   // oldest first

    /** Where the i-th oldest element lies. */
    function Slot(i: nat): nat
      reads this
    {
      if start + i < cap then start + i else start + i - cap
    }

    ghost predicate Valid()
      reads this, data
    {
      && data.Length == cap
      && len == |contents| <= cap
      && (cap > 0 ==> start < cap)
      && forall i :: 0 <= i < len ==> data[Slot(i)] == contents[i]
    }

    constructor (cap: nat)
      ensures Valid() && fresh(data) && this.cap == cap && contents == []
    {
      this.cap := cap;
      data := new T[cap];
      start, len, contents := 0, 0, [];
    }

    /** select { case ch <- x: ... default: ... } */
    method TrySend(x: T) returns (sent: bool)
      requires Valid()
      modifies this, data
      ensures Valid() && sent == (|old(contents)| < cap)
      ensures contents == if sent then old(contents) + [x] else old(contents)
    {
      if len == cap {
        return false;
      }
      data[Slot(len)] := x;
      len, contents := len + 1, contents + [x];
      return true;
    }

    /** select { case x := <-ch: ... default: ... } */
    method TryReceive() returns (x: Option<T>)
      requires Valid()
      modifies this
      ensures Valid()
      ensures x == if old(contents) == [] then None else Some(old(contents)[0])
      ensures contents == if old(contents) == [] then [] else old(contents)[1..]
    {
      if len == 0 {
        return None;
      }
      x := Some(data[start]);
      start, len, contents := Slot(1), len - 1, contents[1..];
    }
  }

}
