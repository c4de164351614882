/** The settings coalescer `useThrottle`: partial updates are merged into one
    accumulator, and a single timer, armed by the first update after a flush,
    hands the whole accumulator to the callback when it fires. Real time is
    not modelled: the timer's expiry is the explicit event `Fire`. */
module Coalescer {

  /** `Object.assign(target, source)` on plain objects used as dictionaries:
      every key of `source` takes its value from `source`, every other key of
      `target` keeps its value. */
  function Assign<K, V>(target: map<K, V>, source: map<K, V>): (r: map<K, V>)
    ensures r.Keys == target.Keys + source.Keys
    ensures forall k :: k in source ==> r[k] == source[k]
    ensures forall k :: k in target && k !in source ==> r[k] == target[k]
  {
    target + source
  }

  /** The accumulator after `updates` are assigned, left to right, into an
      empty object: every key of every update is kept. */
  function MergeAll<K, V>(updates: seq<map<K, V>>): (r: map<K, V>)
    ensures forall i, k :: 0 <= i < |updates| && k in updates[i] ==> k in r
  {
    if updates == [] then map[]
    else Assign(MergeAll(updates[..|updates| - 1]), updates[|updates| - 1])
  }

  /** A key is in the merge exactly when some update holds it. */
  lemma {:induction false} MergeAllKeys<K, V>(updates: seq<map<K, V>>, k: K)
    ensures k in MergeAll(updates) <==> exists i :: 0 <= i < |updates| && k in updates[i]
  {
    if updates != [] {
      var init := updates[..|updates| - 1];
      MergeAllKeys(init, k);
      if k in MergeAll(updates) && k !in updates[|updates| - 1] {
        var i :| 0 <= i < |init| && k in init[i];
        assert updates[i] == init[i];
      }
      if exists i :: 0 <= i < |updates| && k in updates[i] {
        var i :| 0 <= i < |updates| && k in updates[i];
        if i < |init| {
          assert init[i] == updates[i];
        }
      }
    }
  }

  /** Last write wins: the merge gives a key the value of the last update
      that holds it. */
  lemma {:induction false} MergeAllLastWriteWins<K, V>(updates: seq<map<K, V>>, i: nat, k: K)
    requires i < |updates| && k in updates[i]
    requires forall j :: i < j < |updates| ==> k !in updates[j]
    ensures k in MergeAll(updates) && MergeAll(updates)[k] == updates[i][k]
  {
    var last := |updates| - 1;
    if i < last {
      var init := updates[..last];
      assert init[i] == updates[i];
      forall j | i < j < |init| ensures k !in init[j] {
        assert init[j] == updates[j];
      }
      MergeAllLastWriteWins(init, i, k);
    }
  }

  /** The closure state of one `useThrottle(cb)` call: the accumulator
      `hash` and the flag `prepared` that says a timer is armed. */
  class Throttle<K(==), V> {
    var hash: map<K, V>
    var prepared: bool

    /** The updates added since the last flush, oldest first. */
    ghost var Window: seq<map<K, V>>
    /** The argument of every callback invocation so far, oldest first. */
    ghost var Flushes: seq<map<K, V>>
    /** How many timers have been armed so far. */
    ghost var Scheduled: nat

    /** The accumulator is the merge of the current window, a timer is armed
        exactly while the window is non-empty, and every armed timer but the
        pending one has fired: at most one timer is ever pending. */
    ghost predicate Valid()
      reads this
    {
      && hash == MergeAll(Window)
      && (prepared <==> Window != [])
      && Scheduled == |Flushes| + (if prepared then 1 else 0)
    }

    /** `useThrottle(cb)`: an empty accumulator and no timer. */
    constructor ()
      ensures Valid()
      ensures hash == map[] && !prepared
      ensures Window == [] && Flushes == [] && Scheduled == 0
    {
      hash := map[];
      prepared := false;
      Window := [];
      Flushes := [];
      Scheduled := 0;
    }

    /** The function `useThrottle` returns: merge `update` into the
        accumulator and arm a timer unless one is armed already. `armed`
        says whether this call armed one. */
    method Add(update: map<K, V>) returns (armed: bool)
      requires Valid()
      modifies this
      ensures Valid()
      ensures hash == Assign(old(hash), update)
      ensures armed == !old(prepared)
      ensures prepared
      ensures Window == old(Window) + [update]
      ensures Flushes == old(Flushes)
      ensures Scheduled == old(Scheduled) + (if armed then 1 else 0)
    {
      hash := Assign(hash, update);
      armed := !prepared;
      if !prepared {
        prepared := true;
        Scheduled := Scheduled + 1;
      }
      assert (Window + [update])[..|Window|] == Window;
      Window := Window + [update];
    }

    /** The armed timer fires: the callback receives the accumulator as it
        stands, which is the last-write-wins merge of the window, and the
        accumulator and the flag are reset. */
    method Fire() returns (flushed: map<K, V>)
      requires Valid() && prepared
      modifies this
      ensures Valid()
      ensures flushed == old(hash) == MergeAll(old(Window))
      ensures hash == map[] && !prepared && Window == []
      ensures Flushes == old(Flushes) + [flushed]
      ensures Scheduled == old(Scheduled)
    {
      flushed := hash;
      Flushes := Flushes + [flushed];
      hash := map[];
      prepared := false;
      Window := [];
    }
  }
}
