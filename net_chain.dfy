/**
 * `Chain<T>`: the intrusive singly-linked list of the IP stack, kept as the
 * sequence of its links together with the two ends, `link_first` and
 * `link_last`. A link already in the chain is never added a second time, so
 * the sequence has no repeated element; it is used as a stack (push at the
 * front) or a queue (push at the back), and always popped at the front.
 */
module NetChain {
  import opened Options
  import opened Seqs

  /** The ends of a chain: `None` (a null pointer) for an empty chain. */
  function Head<T>(s: seq<T>): Option<T> {
    if s == [] then None else Some(s[0])
  }

  function Tail<T>(s: seq<T>): Option<T> {
    if s == [] then None else Some(s[|s| - 1])
  }

  /** `chain_prepend`: a link not yet in the chain goes to the front. */
  function Prepended<T(==)>(s: seq<T>, x: T): (r: seq<T>)
    ensures x in r && (forall i :: 0 <= i < |s| ==> s[i] in r) && (forall i :: 0 <= i < |r| ==> r[i] in s || r[i] == x)
    ensures Distinct(s) ==> Distinct(r)
    ensures x !in s ==> |r| == |s| + 1 && Head(r) == Some(x)
    ensures x in s ==> r == s
    ensures x !in s ==> r == [x] + s
  {
    if x in s then s else [x] + s
  }

  /** `chain_append`: a link not yet in the chain goes to the back. */
  function Appended<T(==)>(s: seq<T>, x: T): (r: seq<T>)
    ensures x in r && (forall i :: 0 <= i < |s| ==> s[i] in r) && (forall i :: 0 <= i < |r| ==> r[i] in s || r[i] == x)
    ensures Distinct(s) ==> Distinct(r)
    ensures x !in s ==> |r| == |s| + 1 && Tail(r) == Some(x) && Head(r) == if s == [] then Some(x) else Head(s)
    ensures x in s ==> r == s
    ensures x !in s ==> r == s + [x]
  {
    if x in s then s else s + [x]
  }

  /** `remove_from_chain`: the link is unhooked where it is; the others keep their order. */
  function Removed<T(==)>(s: seq<T>, x: T): (r: seq<T>)
    ensures forall i :: 0 <= i < |r| ==> r[i] in s
    ensures x in s ==> |r| == |s| - 1
    ensures x !in s ==> r == s
    ensures Distinct(s) ==> Distinct(r) && x !in r && forall i :: 0 <= i < |s| && s[i] != x ==> s[i] in r
    decreases |s|
  {
    if s == [] then []
    else if s[0] == x then s[1..]
    else [s[0]] + Removed(s[1..], x)
  }

  /** Where a link sits in a chain: its first occurrence. */
  function Position<T(==)>(s: seq<T>, x: T): (k: nat)
    requires x in s
    ensures k < |s| && s[k] == x && x !in s[..k]
    decreases |s|
  {
    if s[0] == x then 0
    else
      assert s[1..][..Position(s[1..], x)] == s[1..Position(s[1..], x) + 1];
      Position(s[1..], x) + 1
  }

  /**
   * Removing a link unhooks it where it sits (its first occurrence, which in
   * a chain is its only one): the links before it and after it are kept, in
   * order.
   */
  lemma {:induction false} RemovedUnhooks<T>(s: seq<T>, x: T)
    requires x in s
    ensures var k := Position(s, x); Removed(s, x) == s[..k] + s[k + 1..]
    decreases |s|
  {
    if s[0] != x {
      InTail(s, x);
      RemovedUnhooks(s[1..], x);
      SplitAfterHead(s, Position(s[1..], x));
    }
  }

  lemma InTail<T>(s: seq<T>, x: T)
    requires x in s && s[0] != x
    ensures x in s[1..]
  {
    assert s == [s[0]] + s[1..];
  }

  /** Cutting `s` around position `j + 1` is cutting its tail around `j`, behind the head. */
  lemma SplitAfterHead<T>(s: seq<T>, j: nat)
    requires j + 1 < |s|
    ensures s[..j + 1] + s[j + 2..] == [s[0]] + (s[1..][..j] + s[1..][j + 1..])
  {
    assert s[..j + 1] == [s[0]] + s[1..][..j];
    assert s[j + 2..] == s[1..][j + 1..];
  }

  /** `chain_pop` (`chain_first (true)`): the first link, which leaves the chain. */
  function Popped<T(==)>(s: seq<T>): (r: (Option<T>, seq<T>))
    requires Distinct(s)
    ensures r.0 == Head(s)
    ensures s != [] ==> r.1 == s[1..]
    ensures s == [] ==> r.1 == []
  {
    match Head(s)
    case None => (None, s)
    case Some(x) => (Some(x), Removed(s, x))
  }

  /** Pushing on the stack and popping gives the pushed link back and the chain as it was. */
  lemma StackOrder<T>(s: seq<T>, x: T)
    requires Distinct(s) && x !in s
    ensures Popped(Prepended(s, x)) == (Some(x), s)
  {
  }

  /**
   * Pushing on the queue only adds at the back: a non-empty chain pops the
   * same link as before, and what remains is the rest with `x` at the back.
   */
  lemma QueueOrder<T>(s: seq<T>, x: T)
    requires Distinct(s) && x !in s
    ensures s == [] ==> Popped(Appended(s, x)) == (Some(x), [])
    ensures s != [] ==> Popped(Appended(s, x)) == (Some(s[0]), Appended(s[1..], x))
  {
    if s != [] {
      assert (s + [x])[1..] == s[1..] + [x];
    }
  }

  /** A queue pops its links in the order they were pushed. */
  lemma {:induction false} QueuePopsInPushOrder<T>(s: seq<T>, xs: seq<T>)
    requires Distinct(s + xs)
    ensures AppendAll(s, xs) == s + xs
    decreases |xs|
  {
    if xs != [] {
      var x := xs[|xs| - 1];
      var p := xs[..|xs| - 1];
      assert s + xs == (s + p) + [x];
      assert Distinct(s + p) by {
        forall i, j | 0 <= i < j < |s + p| ensures (s + p)[i] != (s + p)[j] {
          assert (s + p)[i] == (s + xs)[i] && (s + p)[j] == (s + xs)[j];
        }
      }
      QueuePopsInPushOrder(s, p);
      assert x !in s + p by {
        forall i | 0 <= i < |s + p| ensures (s + p)[i] != x {
          assert (s + p)[i] == (s + xs)[i] && (s + xs)[|s + xs| - 1] == x;
        }
      }
    }
  }

  /** A run of queue pushes. */
  function AppendAll<T(==)>(s: seq<T>, xs: seq<T>): seq<T>
    decreases |xs|
  {
    if xs == [] then s else Appended(AppendAll(s, xs[..|xs| - 1]), xs[|xs| - 1])
  }

  class Chain<T(==)> {
    /** The links from `link_first` along `link_next`. */
    var links: seq<T>
    var first: Option<T>
    var last: Option<T>

    ghost predicate Valid()
      reads this
    {
      Distinct(links) && first == Head(links) && last == Tail(links)
    }

    constructor ()
      ensures Valid() && links == []
    {
      links := [];
      first := None;
      last := None;
    }

    /** `in_chain`: the walk from `link_first` meets the link. */
    function InChain(x: T): (r: bool)
      reads this
      requires Valid()
      ensures r <==> exists i :: 0 <= i < |links| && links[i] == x
    {
      x in links
    }

    method Prepend(x: T)
      requires Valid()
      modifies this
      ensures Valid() && links == Prepended(old(links), x)
    {
      if !InChain(x) {
        links := [x] + links;
        first := Some(x);
        if last.None? {
          last := Some(x);
        }
      }
    }

    method Append(x: T)
      requires Valid()
      modifies this
      ensures Valid() && links == Appended(old(links), x)
    {
      if !InChain(x) {
        if last.None? {
          first := Some(x);
        }
        links := links + [x];
        last := Some(x);
      }
    }

    /** `chain_remove`. */
    method Remove(x: T)
      requires Valid()
      modifies this
      ensures Valid() && links == Removed(old(links), x)
    {
      links := Removed(links, x);
      first := Head(links);
      last := Tail(links);
    }

    /** `chain_first (bRemove)`: the first link, taken out of the chain when asked. */
    method First(remove: bool) returns (r: Option<T>)
      requires Valid()
      modifies this
      ensures Valid() && r == Head(old(links))
      ensures links == if remove then Popped(old(links)).1 else old(links)
    {
      r := first;
      if remove && r.Some? {
        Remove(r.value);
      }
    }

    /** `chain_push (link, bFIFO)`: at the back for a queue, at the front for a stack. */
    method Push(x: T, fifo: bool)
      requires Valid()
      modifies this
      ensures Valid() && links == if fifo then Appended(old(links), x) else Prepended(old(links), x)
    {
      if fifo {
        Append(x);
      } else {
        Prepend(x);
      }
    }

    method Pop() returns (r: Option<T>)
      requires Valid()
      modifies this
      ensures Valid() && (r, links) == Popped(old(links))
    {
      r := First(true);
    }
  }
}
