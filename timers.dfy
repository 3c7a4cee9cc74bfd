/** A virtual-time `setTimeout` queue. Each entry has the time it falls due,
    the sequence number it was scheduled with and the callback to run. Due
    entries fire by due time, and among equal due times in the order they
    were scheduled. */
module Timers {

  datatype Timer<A> = Timer(due: int, id: nat, action: A)

  /** `t` fires before `u`: it is due earlier, or due at the same time and
      scheduled earlier. */
  predicate Precedes<A>(t: Timer<A>, u: Timer<A>) {
    t.due < u.due || (t.due == u.due && t.id < u.id)
  }

  /** The queue lists timers in the order they were scheduled. */
  ghost predicate IdsIncreasing<A>(q: seq<Timer<A>>) {
    forall i, j :: 0 <= i < j < |q| ==> q[i].id < q[j].id
  }

  /** No timer of `q` fires before the one at `k`. */
  ghost predicate IsEarliest<A>(q: seq<Timer<A>>, k: nat) {
    k < |q| && forall j :: 0 <= j < |q| ==> !Precedes(q[j], q[k])
  }

  /** Index of the timer that fires next. */
  function Earliest<A>(q: seq<Timer<A>>): (k: nat)
    requires q != []
    ensures IsEarliest(q, k)
    ensures forall j :: 0 <= j < |q| ==> q[k].due <= q[j].due
  {
    if |q| == 1 then 0
    else
      var k := Earliest(q[1..]) + 1;
      if Precedes(q[k], q[0]) then k else 0
  }

  /** Timers scheduled in order have distinct sequence numbers, so only one
      of them can be first. */
  lemma EarliestUnique<A>(q: seq<Timer<A>>, k: nat)
    requires IdsIncreasing(q) && IsEarliest(q, k)
    ensures k == Earliest(q)
  {
  }

  /** The queue without its entry at `k`. */
  function Remove<A>(q: seq<Timer<A>>, k: nat): (r: seq<Timer<A>>)
    requires k < |q|
    ensures |r| == |q| - 1
  {
    q[..k] + q[k + 1..]
  }

  /** Removal keeps everything else in scheduling order, and the removed entry
      is gone because no other entry has its sequence number. */
  lemma RemoveMembers<A>(q: seq<Timer<A>>, k: nat)
    requires k < |q| && IdsIncreasing(q)
    ensures IdsIncreasing(Remove(q, k))
    ensures forall t :: t in Remove(q, k) <==> t in q && t.id != q[k].id
  {
    var r := Remove(q, k);
    forall i, j | 0 <= i < j < |r| ensures r[i].id < r[j].id {
      var i' := if i < k then i else i + 1;
      var j' := if j < k then j else j + 1;
      assert r[i] == q[i'] && r[j] == q[j'];
    }
    forall t ensures t in r <==> t in q && t.id != q[k].id {
      if t in r {
        var i :| 0 <= i < |r| && r[i] == t;
        var i' := if i < k then i else i + 1;
        assert r[i] == q[i'];
        assert q[i'].id != q[k].id by {
          if i' < k { assert q[i'].id < q[k].id; } else { assert q[k].id < q[i'].id; }
        }
      }
      if t in q && t.id != q[k].id {
        var i :| 0 <= i < |q| && q[i] == t;
        assert i != k;
        if i < k { assert r[i] == t; } else { assert r[i - 1] == t; }
      }
    }
  }

  /** In a queue in scheduling order, a timer other than the one at `k` has
      another sequence number. */
  lemma OtherIds<A>(q: seq<Timer<A>>, k: nat, t: Timer<A>)
    requires k < |q| && IdsIncreasing(q) && t in q && t != q[k]
    ensures t.id != q[k].id
  {
    var i :| 0 <= i < |q| && q[i] == t;
    if i < k { assert q[i].id < q[k].id; } else { assert q[k].id < q[i].id; }
  }

  /** Appending timers scheduled later keeps the queue in scheduling order. */
  lemma AppendOrdered<A>(q: seq<Timer<A>>, b: seq<Timer<A>>, base: nat)
    requires IdsIncreasing(q) && IdsIncreasing(b)
    requires forall t :: t in q ==> t.id < base
    requires forall t :: t in b ==> base <= t.id
    ensures IdsIncreasing(q + b)
  {
    var r := q + b;
    forall i, j | 0 <= i < j < |r| ensures r[i].id < r[j].id {
      if j < |q| {
        assert r[i] == q[i] && r[j] == q[j];
      } else if i >= |q| {
        assert r[i] == b[i - |q|] && r[j] == b[j - |q|];
      } else {
        assert r[i] == q[i] && q[i] in q;
        assert r[j] == b[j - |q|] && b[j - |q|] in b;
      }
    }
  }

  /** `clearTimeout(id)`: the queue without the timer scheduled as `id`. */
  function Cancel<A(!new)>(q: seq<Timer<A>>, id: nat): (r: seq<Timer<A>>)
    ensures forall t :: t in r <==> t in q && t.id != id
    ensures |r| <= |q|
  {
    if q == [] then []
    else if q[0].id == id then Cancel(q[1..], id)
    else [q[0]] + Cancel(q[1..], id)
  }

  /** In a queue in scheduling order the head was scheduled before the rest. */
  lemma HeadFirst<A>(q: seq<Timer<A>>)
    requires q != [] && IdsIncreasing(q)
    ensures forall t :: t in q[1..] ==> q[0].id < t.id
  {
    forall t | t in q[1..] ensures q[0].id < t.id {
      var i :| 0 <= i < |q[1..]| && q[1..][i] == t;
      assert q[i + 1] == t;
    }
  }

  /** A timer scheduled before every timer of an ordered queue can go in front. */
  lemma PrependOrdered<A>(x: Timer<A>, q: seq<Timer<A>>)
    requires IdsIncreasing(q) && forall t :: t in q ==> x.id < t.id
    ensures IdsIncreasing([x] + q)
  {
    var r := [x] + q;
    forall i, j | 0 <= i < j < |r| ensures r[i].id < r[j].id {
      assert r[j] == q[j - 1] && q[j - 1] in q;
      if i > 0 {
        assert r[i] == q[i - 1];
      }
    }
  }

  /** Cancelling keeps the other timers in scheduling order. */
  lemma {:induction false} CancelOrdered<A(!new)>(q: seq<Timer<A>>, id: nat)
    requires IdsIncreasing(q)
    ensures IdsIncreasing(Cancel(q, id))
  {
    if q != [] {
      CancelOrdered(q[1..], id);
      if q[0].id != id {
        HeadFirst(q);
        PrependOrdered(q[0], Cancel(q[1..], id));
      }
    }
  }

  /** Cancelling from a queue one entry at a time, front to back. */
  lemma {:induction false} CancelAppend<A(!new)>(q: seq<Timer<A>>, x: Timer<A>, id: nat)
    ensures Cancel(q + [x], id) == Cancel(q, id) + (if x.id == id then [] else [x])
  {
    if q == [] {
      assert q + [x] == [x];
      assert [x][1..] == [];
    } else {
      assert (q + [x])[0] == q[0];
      assert (q + [x])[1..] == q[1..] + [x];
      CancelAppend(q[1..], x, id);
    }
  }

  /** True when some timer of `q` is due at or before `time`. */
  predicate AnyDue<A>(q: seq<Timer<A>>, time: int) {
    exists i :: 0 <= i < |q| && q[i].due <= time
  }

  /** Number of timers of `q` due at or before `time`. */
  function CountDue<A>(q: seq<Timer<A>>, time: int): nat {
    if q == [] then 0
    else (if q[0].due <= time then 1 else 0) + CountDue(q[1..], time)
  }

  lemma {:induction false} CountDueAppend<A>(a: seq<Timer<A>>, b: seq<Timer<A>>, time: int)
    ensures CountDue(a + b, time) == CountDue(a, time) + CountDue(b, time)
  {
    if a == [] {
      assert a + b == b;
    } else {
      assert (a + b)[1..] == a[1..] + b;
      CountDueAppend(a[1..], b, time);
    }
  }

  /** Timers scheduled with a positive delay are not yet due. */
  lemma {:induction false} CountDueNone<A>(b: seq<Timer<A>>, time: int)
    requires forall t :: t in b ==> t.due > time
    ensures CountDue(b, time) == 0
  {
    if b != [] {
      assert b[0] in b;
      assert forall t :: t in b[1..] ==> t in b;
      CountDueNone(b[1..], time);
    }
  }

  /** Appending timers that are not yet due leaves the due count alone. */
  lemma CountDueAppendLater<A>(a: seq<Timer<A>>, b: seq<Timer<A>>, time: int)
    requires forall t :: t in b ==> t.due > time
    ensures CountDue(a + b, time) == CountDue(a, time)
  {
    CountDueAppend(a, b, time);
    CountDueNone(b, time);
  }

  lemma CountDueRemove<A>(q: seq<Timer<A>>, k: nat, time: int)
    requires k < |q|
    ensures CountDue(Remove(q, k), time) + (if q[k].due <= time then 1 else 0) == CountDue(q, time)
  {
    assert q == q[..k] + ([q[k]] + q[k + 1..]);
    CountDueAppend(q[..k], [q[k]] + q[k + 1..], time);
    CountDueAppend([q[k]], q[k + 1..], time);
    CountDueAppend(q[..k], q[k + 1..], time);
  }

  lemma {:induction false} CountDueCancel<A(!new)>(q: seq<Timer<A>>, id: nat, time: int)
    ensures CountDue(Cancel(q, id), time) <= CountDue(q, time)
  {
    if q != [] {
      CountDueCancel(q[1..], id, time);
      if q[0].id != id {
        assert ([q[0]] + Cancel(q[1..], id))[1..] == Cancel(q[1..], id);
      }
    }
  }
}
