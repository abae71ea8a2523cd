/**
 * Handle discipline. Each libvirt call that hands back something the caller must give back (a
 * connection, a domain, a snapshot, a pool, a volume, a heap string) acquires a `Resource`;
 * each `virConnectClose`, `virDomainFree`, … or `free` releases one.
 *
 * The reference semantics is a replay of an event trace: `Lifo` (every release gives back the
 * most recently acquired handle still held, and nothing is held at the end) and the weaker
 * `NoLeak` (every handle is released exactly once, in any order). On every exit path of the C
 * functions modelled here, the releases all come after the last acquisition, so an exit path is
 * summarised by `Handles`: what it acquired, in order, and what it released, in order. The
 * lemmas at the end connect the summary predicates to the replay.
 */
module Resources {
  import opened Wrappers

  datatype Resource =
    | Connection | SourceConnection | DestConnection
    | Domain | NewDomain | Snapshot
    | Pool | Volume
    | XmlText     // the descriptor string from virDomainGetXMLDesc
    | VolumePath  // the path string from virStorageVolGetPath
    | NameList    // the array malloc'ed for virDomainSnapshotListNames
    | NameStrings // the name strings virDomainSnapshotListNames allocates into that array

  datatype Event = Acquire(r: Resource) | Release(r: Resource)

  type Trace = seq<Event>

  /** Replays `t` on a stack of held handles; `None` as soon as a release is not of the top one. */
  function Unwind(stack: seq<Resource>, t: Trace): Option<seq<Resource>>
    decreases |t|
  {
    if |t| == 0 then Some(stack)
    else match t[0]
      case Acquire(r) => Unwind(stack + [r], t[1..])
      case Release(r) =>
        if |stack| > 0 && stack[|stack| - 1] == r then Unwind(stack[..|stack| - 1], t[1..]) else None
  }

  /** Replays `t` on a bag of held handles; `None` as soon as something not held is released. */
  function Held(held: multiset<Resource>, t: Trace): Option<multiset<Resource>>
    decreases |t|
  {
    if |t| == 0 then Some(held)
    else match t[0]
      case Acquire(r) => Held(held + multiset{r}, t[1..])
      case Release(r) => if r in held then Held(held - multiset{r}, t[1..]) else None
  }

  /** Released in strict reverse order of acquisition, and all released. */
  predicate Lifo(t: Trace) {
    Unwind([], t) == Some([])
  }

  /** Every handle acquired is released exactly once. */
  predicate NoLeak(t: Trace) {
    Held(multiset{}, t) == Some(multiset{})
  }

  /** The stack replay and the bag replay agree on what is held, whenever the stack replay succeeds. */
  lemma {:induction false} UnwindHeld(stack: seq<Resource>, t: Trace)
    requires Unwind(stack, t).Some?
    ensures Held(multiset(stack), t) == Some(multiset(Unwind(stack, t).value))
    decreases |t|
  {
    if |t| > 0 {
      match t[0]
      case Acquire(r) =>
        assert multiset(stack + [r]) == multiset(stack) + multiset{r};
        UnwindHeld(stack + [r], t[1..]);
      case Release(r) =>
        var n := |stack| - 1;
        assert stack == stack[..n] + [r];
        assert multiset(stack) == multiset(stack[..n]) + multiset{r};
        assert multiset(stack[..n]) == multiset(stack) - multiset{r};
        UnwindHeld(stack[..n], t[1..]);
    }
  }

  /** Strict reverse-order release is a special case of releasing everything exactly once. */
  lemma LifoNoLeak(t: Trace)
    requires Lifo(t)
    ensures NoLeak(t)
  {
    UnwindHeld([], t);
  }

  // ---------------------------------------------------------------------------------------
  // One exit path: its acquisitions, then its releases
  // ---------------------------------------------------------------------------------------

  datatype Handles = Handles(acquired: seq<Resource>, released: seq<Resource>)

  /** Nothing held: the exit before anything was acquired. */
  const NoHandles := Handles([], [])

  /** Everything acquired is released, newest first. */
  predicate ReleasedInReverse(h: Handles) {
    && |h.released| == |h.acquired|
    && forall i :: 0 <= i < |h.acquired| ==> h.released[i] == h.acquired[|h.acquired| - 1 - i]
  }

  /** The handles of a path that takes `rs` in order and frees them newest first. */
  function Nested(rs: seq<Resource>): (h: Handles)
    ensures h.acquired == rs && ReleasedInReverse(h)
  {
    Handles(rs, Reversed(rs))
  }

  /** `rs` read from the end. */
  function Reversed(rs: seq<Resource>): (r: seq<Resource>)
    ensures |r| == |rs| && forall i :: 0 <= i < |rs| ==> r[i] == rs[|rs| - 1 - i]
  {
    if |rs| == 0 then [] else [rs[|rs| - 1]] + Reversed(rs[..|rs| - 1])
  }

  /** Everything acquired is released exactly once, in some order. */
  predicate AllReleased(h: Handles) {
    multiset(h.acquired) == multiset(h.released)
  }

  /** `r` is acquired on this path and never given back. */
  predicate Leaks(h: Handles, r: Resource) {
    r in h.acquired && r !in h.released
  }

  function Acquires(rs: seq<Resource>): (t: Trace)
    ensures |t| == |rs|
    ensures forall i :: 0 <= i < |rs| ==> t[i] == Acquire(rs[i])
  {
    seq(|rs|, i requires 0 <= i < |rs| => Acquire(rs[i]))
  }

  function Releases(rs: seq<Resource>): (t: Trace)
    ensures |t| == |rs|
    ensures forall i :: 0 <= i < |rs| ==> t[i] == Release(rs[i])
  {
    seq(|rs|, i requires 0 <= i < |rs| => Release(rs[i]))
  }

  /** The event trace an exit path stands for. */
  function Flatten(h: Handles): Trace {
    Acquires(h.acquired) + Releases(h.released)
  }

  /** Replaying a concatenation replays the first part, then the second from where the first left off. */
  lemma {:induction false} UnwindAppend(stack: seq<Resource>, a: Trace, b: Trace)
    ensures Unwind(stack, a + b) == if Unwind(stack, a).Some? then Unwind(Unwind(stack, a).value, b) else None
    decreases |a|
  {
    if |a| > 0 {
      assert (a + b)[0] == a[0];
      assert (a + b)[1..] == a[1..] + b;
      match a[0]
      case Acquire(r) => UnwindAppend(stack + [r], a[1..], b);
      case Release(r) =>
        if |stack| > 0 && stack[|stack| - 1] == r {
          UnwindAppend(stack[..|stack| - 1], a[1..], b);
        }
    } else {
      assert a + b == b;
    }
  }

  /** Bag replay of a concatenation, as for the stack replay. */
  lemma {:induction false} HeldAppend(held: multiset<Resource>, a: Trace, b: Trace)
    ensures Held(held, a + b) == if Held(held, a).Some? then Held(Held(held, a).value, b) else None
    decreases |a|
  {
    if |a| > 0 {
      assert (a + b)[0] == a[0];
      assert (a + b)[1..] == a[1..] + b;
      match a[0]
      case Acquire(r) => HeldAppend(held + multiset{r}, a[1..], b);
      case Release(r) =>
        if r in held {
          HeldAppend(held - multiset{r}, a[1..], b);
        }
    } else {
      assert a + b == b;
    }
  }

  /** Acquiring pushes onto the stack in order. */
  lemma {:induction false} UnwindAcquires(stack: seq<Resource>, rs: seq<Resource>)
    ensures Unwind(stack, Acquires(rs)) == Some(stack + rs)
    decreases |rs|
  {
    if |rs| == 0 {
      assert stack + rs == stack;
    } else {
      assert Acquires(rs)[1..] == Acquires(rs[1..]);
      UnwindAcquires(stack + [rs[0]], rs[1..]);
      assert stack + [rs[0]] + rs[1..] == stack + rs;
    }
  }

  /** Releasing pops the stack empty exactly when the releases are the stack read from the top. */
  lemma {:induction false} UnwindReleases(stack: seq<Resource>, rs: seq<Resource>)
    ensures Unwind(stack, Releases(rs)) == Some([]) <==>
      |rs| == |stack| && forall i :: 0 <= i < |rs| ==> rs[i] == stack[|stack| - 1 - i]
    decreases |rs|
  {
    if |rs| == 0 {
    } else {
      assert Releases(rs)[0] == Release(rs[0]);
      assert Releases(rs)[1..] == Releases(rs[1..]);
      var n := |stack| - 1;
      if !(|stack| > 0 && stack[n] == rs[0]) {
        assert Unwind(stack, Releases(rs)) == None;
        assert |rs| == |stack| ==> rs[0] != stack[|stack| - 1 - 0];
      } else {
        assert Unwind(stack, Releases(rs)) == Unwind(stack[..n], Releases(rs[1..]));
        UnwindReleases(stack[..n], rs[1..]);
        ReverseStep(stack, rs);
      }
    }
  }

  /** `rs` reads `stack` from the top exactly when its tail reads the stack below the top. */
  lemma ReverseStep(stack: seq<Resource>, rs: seq<Resource>)
    requires |rs| > 0 && |stack| > 0 && stack[|stack| - 1] == rs[0]
    ensures (|rs| == |stack| && forall i :: 0 <= i < |rs| ==> rs[i] == stack[|stack| - 1 - i]) <==>
      (|rs[1..]| == |stack[..|stack| - 1]| &&
       forall i :: 0 <= i < |rs[1..]| ==> rs[1..][i] == stack[..|stack| - 1][|stack[..|stack| - 1]| - 1 - i])
  {
    var n := |stack| - 1;
    if |rs| == |stack| && forall i :: 0 <= i < |rs| ==> rs[i] == stack[|stack| - 1 - i] {
      forall i | 0 <= i < |rs| - 1
        ensures rs[1..][i] == stack[..n][|stack[..n]| - 1 - i]
      {
        assert rs[1..][i] == rs[i + 1];
      }
    }
    if |rs[1..]| == |stack[..n]| && forall i :: 0 <= i < |rs[1..]| ==> rs[1..][i] == stack[..n][|stack[..n]| - 1 - i] {
      forall i | 0 <= i < |rs|
        ensures rs[i] == stack[|stack| - 1 - i]
      {
        if i > 0 {
          assert rs[i] == rs[1..][i - 1];
        }
      }
    }
  }

  /** Replaying an exit path: push every acquisition, then pop by the releases. */
  lemma FlattenUnwind(h: Handles)
    ensures Unwind([], Flatten(h)) == Unwind(h.acquired, Releases(h.released))
  {
    UnwindAcquires([], h.acquired);
    assert [] + h.acquired == h.acquired;
    UnwindAppend([], Acquires(h.acquired), Releases(h.released));
  }

  /** The summary predicate `ReleasedInReverse` is exactly the replay's `Lifo`. */
  lemma FlattenLifo(h: Handles)
    ensures Lifo(Flatten(h)) <==> ReleasedInReverse(h)
  {
    FlattenUnwind(h);
    UnwindReleases(h.acquired, h.released);
  }

  /** Acquiring adds to the bag. */
  lemma {:induction false} HeldAcquires(held: multiset<Resource>, rs: seq<Resource>)
    ensures Held(held, Acquires(rs)) == Some(held + multiset(rs))
    decreases |rs|
  {
    if |rs| == 0 {
      assert held + multiset(rs) == held;
    } else {
      assert Acquires(rs)[1..] == Acquires(rs[1..]);
      HeldAcquires(held + multiset{rs[0]}, rs[1..]);
      assert rs == [rs[0]] + rs[1..];
      assert multiset(rs) == multiset{rs[0]} + multiset(rs[1..]);
      assert held + multiset{rs[0]} + multiset(rs[1..]) == held + multiset(rs);
      assert Held(held, Acquires(rs)) == Held(held + multiset{rs[0]}, Acquires(rs[1..]));
    }
  }

  /** Releasing succeeds exactly when every release is covered by the bag, and takes them out. */
  lemma {:induction false} HeldReleases(held: multiset<Resource>, rs: seq<Resource>)
    ensures Held(held, Releases(rs)).Some? <==> multiset(rs) <= held
    ensures Held(held, Releases(rs)).Some? ==> Held(held, Releases(rs)).value == held - multiset(rs)
    decreases |rs|
  {
    if |rs| == 0 {
      assert held - multiset(rs) == held;
    } else {
      assert Releases(rs)[1..] == Releases(rs[1..]);
      assert rs == [rs[0]] + rs[1..];
      assert multiset(rs) == multiset{rs[0]} + multiset(rs[1..]);
      if rs[0] in held {
        HeldReleases(held - multiset{rs[0]}, rs[1..]);
        TakeOne(held, rs[0], multiset(rs[1..]));
      } else {
        assert multiset(rs)[rs[0]] > held[rs[0]];
      }
    }
  }

  /** Taking `x` out of a bag that holds it, then a bag `m`, is taking out `m` plus `x`. */
  lemma TakeOne(held: multiset<Resource>, x: Resource, m: multiset<Resource>)
    requires x in held
    ensures m <= held - multiset{x} <==> multiset{x} + m <= held
    ensures held - multiset{x} - m == held - (multiset{x} + m)
  {
  }

  /** The summary predicate `AllReleased` is exactly the replay's `NoLeak`. */
  lemma FlattenNoLeak(h: Handles)
    ensures NoLeak(Flatten(h)) <==> AllReleased(h)
  {
    HeldAppend(multiset{}, Acquires(h.acquired), Releases(h.released));
    HeldAcquires(multiset{}, h.acquired);
    assert multiset{} + multiset(h.acquired) == multiset(h.acquired);
    HeldReleases(multiset(h.acquired), h.released);
    if AllReleased(h) {
      assert multiset(h.acquired) - multiset(h.released) == multiset{};
    }
    if NoLeak(Flatten(h)) {
      var a, r := multiset(h.acquired), multiset(h.released);
      assert r <= a && a - r == multiset{};
      forall x ensures a[x] == r[x] {
        assert (a - r)[x] == 0;
      }
    }
  }

  /** Releasing newest first releases everything. */
  lemma ReleasedInReverseAll(h: Handles)
    requires ReleasedInReverse(h)
    ensures AllReleased(h)
  {
    FlattenLifo(h);
    LifoNoLeak(Flatten(h));
    FlattenNoLeak(h);
  }

  /** Of four handles, the last two freed in swapped order: still each freed exactly once. */
  lemma SwappedReleaseAll(a: Resource, b: Resource, c: Resource, d: Resource)
    ensures AllReleased(Handles([a, b, c, d], [c, d, b, a]))
  {
    PairsOf(a, b, c, d);
    PairsOf(c, d, b, a);
    PairSwap(a, b);
  }

  /** Four handles count as two pairs. */
  lemma PairsOf(a: Resource, b: Resource, c: Resource, d: Resource)
    ensures multiset([a, b, c, d]) == multiset([a, b]) + multiset([c, d])
  {
    var x, y := [a, b], [c, d];
    assert [a, b, c, d] == x + y;
    MultisetOfConcat(x, y);
  }

  /** What a concatenation releases is what its parts release. */
  lemma MultisetOfConcat(x: seq<Resource>, y: seq<Resource>)
    ensures multiset(x + y) == multiset(x) + multiset(y)
  {
  }

  /** The order within a pair does not matter to what is released. */
  lemma PairSwap(a: Resource, b: Resource)
    ensures multiset([a, b]) == multiset([b, a])
  {
  }
}
