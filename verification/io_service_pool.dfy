/**
  Round-robin choice of an I/O context (AsioIOServicePool.cpp, GetIOService).
*/
module IoServicePool {
  /** The next index and the indices handed out, after `calls` calls on a pool of `n`. */
  datatype Served = Served(next: nat, handed: seq<nat>)

  function Serve(n: nat, calls: nat): (s: Served)
    requires n > 0
    ensures s.next < n && |s.handed| == calls
    decreases calls
  {
    if calls == 0 then Served(0, [])
    else
      var before := Serve(n, calls - 1);
      Served(if before.next + 1 == n then 0 else before.next + 1, before.handed + [before.next])
  }

  /** The contexts come in turn: the first call gets number 0, each later call the one after the
      call before, and after the last comes number 0 again. */
  lemma {:induction false} ServedInTurn(n: nat, calls: nat, k: nat)
    requires n > 0 && k < calls
    ensures var handed := Serve(n, calls).handed;
            handed[k] == if k == 0 then 0 else if handed[k - 1] + 1 == n then 0 else handed[k - 1] + 1
  {
    if k < calls - 1 {
      ServedInTurn(n, calls - 1, k);
    } else if k > 0 {
      assert Serve(n, k).handed[k - 1] == Serve(n, k - 1).next;
    }
  }

  function Times(handed: seq<nat>, i: nat): nat {
    if handed == [] then 0
    else Times(handed[..|handed| - 1], i) + if handed[|handed| - 1] == i then 1 else 0
  }

  /** Every index has been handed out `rounds` times, those already passed once more. */
  lemma {:induction false} RoundsServed(n: nat, calls: nat) returns (rounds: nat)
    requires n > 0
    ensures forall i :: 0 <= i < n ==>
              Times(Serve(n, calls).handed, i) == rounds + if i < Serve(n, calls).next then 1 else 0
  {
    if calls == 0 {
      rounds := 0;
    } else {
      var before := Serve(n, calls - 1);
      rounds := RoundsServed(n, calls - 1);
      var handed := Serve(n, calls).handed;
      assert handed[..|handed| - 1] == before.handed;
      if before.next + 1 == n {
        rounds := rounds + 1;
      }
    }
  }

  /** However many calls, no context was handed out more than once oftener than another, and
      only contexts of the pool were. */
  lemma RoundRobinIsFair(n: nat, calls: nat, i: nat, j: nat)
    requires i < n && j < n
    ensures Times(Serve(n, calls).handed, i) <= Times(Serve(n, calls).handed, j) + 1
  {
    var rounds := RoundsServed(n, calls);
  }

  class AsioIOServicePool {
    const size: nat
    var nextIoService: nat
    ghost var handed: seq<nat>

    ghost predicate Valid()
      reads this
    {
      size > 0 && Served(nextIoService, handed) == Serve(size, |handed|)
    }

    constructor (poolSize: nat)
      requires poolSize > 0
      ensures Valid() && size == poolSize && handed == []
    {
      size, nextIoService, handed := poolSize, 0, [];
    }

    method GetIOService() returns (i: nat)
      requires Valid()
      modifies this
      ensures Valid() && i < size && handed == old(handed) + [i]
      ensures i == if old(handed) == [] then 0
                   else var last := old(handed)[|old(handed)| - 1]; if last + 1 == size then 0 else last + 1
    {
      if handed != [] {
        assert Serve(size, |handed|).handed == Serve(size, |handed| - 1).handed + [Serve(size, |handed| - 1).next];
      }
      i := nextIoService;
      nextIoService := nextIoService + 1;
      if nextIoService == size {
        nextIoService := 0;
      }
      handed := handed + [i];
    }
  }
}
