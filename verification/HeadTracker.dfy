/**
 The tracker of the oldest unacknowledged sequence number
 (native/tgwsproxy/mtproto_chunk_relay_pipeline.go).

 Upload goroutines mark sequence numbers done in any order and more than once; the
 tracker keeps only a head and the set of marks above it.
 */
module HeadTracker {

  /** `wakeups` counts the times the `changed` channel has been closed and replaced. */
  datatype State = State(head: int, done: set<int>, wakeups: nat)

  function New(head: int): State {
    State(head, {}, 0)
  }

  /** Consume the marks that are contiguous with the head. */
  function Advance(head: int, done: set<int>): (r: (int, set<int>))
    ensures head <= r.0
    decreases |done|
  {
    if head in done then
      assert |done - {head}| < |done|;
      Advance(head + 1, done - {head})
    else
      (head, done)
  }

  lemma {:induction false} AdvanceConsumesRun(head: int, done: set<int>)
    ensures Advance(head, done).0 !in done
    ensures forall s :: head <= s < Advance(head, done).0 ==> s in done
    ensures forall s :: s in Advance(head, done).1 <==> s in done && !(head <= s < Advance(head, done).0)
    decreases |done|
  {
    if head in done {
      assert |done - {head}| < |done|;
      AdvanceConsumesRun(head + 1, done - {head});
      var r := Advance(head + 1, done - {head});
      assert Advance(head, done) == r;
      forall s | head <= s < r.0
        ensures s in done
      {
        assert s == head || s in done - {head};
      }
    }
  }

  function Mark(t: State, n: int): State {
    if n < t.head then t
    else
      var (head, done) := Advance(t.head, t.done + {n});
      State(head, done, if head != t.head then t.wakeups + 1 else t.wakeups)
  }

  function MarkAll(t: State, marks: seq<int>): State {
    if marks == [] then t else Mark(MarkAll(t, marks[..|marks| - 1]), marks[|marks| - 1])
  }

  /** The plain-set meaning: the head is the least unmarked number from `base` up. */
  ghost predicate Represents(t: State, base: int, marked: set<int>) {
    && base <= t.head
    && t.head !in marked
    && (forall s :: base <= s < t.head ==> s in marked)
    && t.done == set s | s in marked && s > t.head
  }

  lemma MarkRepresents(t: State, base: int, marked: set<int>, n: int)
    requires Represents(t, base, marked)
    ensures Represents(Mark(t, n), base, marked + {n})
    ensures Mark(t, n).head >= t.head
    ensures Mark(t, n).head != t.head <==> n == t.head
    ensures Mark(t, n).head != t.head <==> Mark(t, n).wakeups != t.wakeups
  {
    if n >= t.head {
      AdvanceConsumesRun(t.head, t.done + {n});
      var (head, done) := Advance(t.head, t.done + {n});
      assert forall s :: s in done <==> s in marked + {n} && s > head;
    }
  }

  lemma {:induction false} MarkAllRepresents(base: int, marks: seq<int>)
    ensures Represents(MarkAll(New(base), marks), base, set s | s in marks)
  {
    if marks != [] {
      var init, last := marks[..|marks| - 1], marks[|marks| - 1];
      MarkAllRepresents(base, init);
      MarkRepresents(MarkAll(New(base), init), base, (set s | s in init), last);
      assert marks == init + [last];
      assert (set s | s in marks) == (set s | s in init) + {last};
    }
  }

  /** Two representations of one set agree, so neither order nor repetition of marks matters. */
  lemma MarkOrderIrrelevant(base: int, marks: seq<int>, marks': seq<int>)
    requires forall s :: s in marks <==> s in marks'
    ensures MarkAll(New(base), marks).head == MarkAll(New(base), marks').head
    ensures MarkAll(New(base), marks).done == MarkAll(New(base), marks').done
  {
    MarkAllRepresents(base, marks);
    MarkAllRepresents(base, marks');
    var a, b := set s | s in marks, set s | s in marks';
    assert forall s :: s in a <==> s in b;
    assert a == b;
  }

  ghost predicate Oldest(base: int, marked: set<int>, n: int) {
    base <= n && n !in marked && forall m :: base <= m < n ==> m in marked
  }

  ghost predicate AllMarked(base: int, marked: set<int>, n: int) {
    forall m :: base <= m <= n ==> m in marked
  }

  lemma HeadIsOldest(t: State, base: int, marked: set<int>, n: int)
    requires Represents(t, base, marked)
    ensures n == t.head <==> Oldest(base, marked, n)
    ensures n < t.head <==> AllMarked(base, marked, n)
  {
    if n > t.head {
      assert t.head !in marked;
    }
  }

  /** Whatever is marked afterwards, a waiter is woken exactly when the head has moved past the one it saw. */
  lemma {:induction false} NoLostWakeup(t: State, base: int, marked: set<int>, marks: seq<int>)
    requires Represents(t, base, marked)
    ensures Represents(MarkAll(t, marks), base, marked + set n | n in marks)
    ensures MarkAll(t, marks).head >= t.head && MarkAll(t, marks).wakeups >= t.wakeups
    ensures MarkAll(t, marks).wakeups != t.wakeups <==> MarkAll(t, marks).head != t.head
  {
    if marks == [] {
      assert marked + (set n | n in marks) == marked;
    } else {
      var before, last := marks[..|marks| - 1], marks[|marks| - 1];
      NoLostWakeup(t, base, marked, before);
      MarkRepresents(MarkAll(t, before), base, marked + (set n | n in before), last);
      assert marks == before + [last];
      assert marked + (set n | n in marks) == marked + (set n | n in before) + {last};
      MarkWakes(MarkAll(t, before), last);
    }
  }

  lemma MarkWakes(t: State, n: int)
    ensures Mark(t, n).wakeups >= t.wakeups
  {
  }

  class Tracker {
    var head: int
    var done: set<int>
    var wakeups: nat

    function Value(): State reads this {
      State(head, done, wakeups)
    }

    constructor (first: int)
      ensures Value() == New(first)
    {
      head, done, wakeups := first, {}, 0;
    }

    /** What a waiting round learns, in terms of the marks made so far: whether n is the oldest unmarked
        number, whether everything up to n is marked, and a token that changes exactly when the head does. */
    method Observe(n: int) returns (isHead: bool, alreadyDone: bool, changed: nat)
      ensures forall base, marked :: Represents(Value(), base, marked) ==>
                && (isHead <==> Oldest(base, marked, n))
                && (alreadyDone <==> AllMarked(base, marked, n))
      ensures forall base, marked, marks :: Represents(Value(), base, marked) ==>
                (MarkAll(Value(), marks).wakeups != changed <==> MarkAll(Value(), marks).head != Value().head)
    {
      isHead, alreadyDone, changed := n == head, n < head, wakeups;
      forall base, marked | Represents(Value(), base, marked)
        ensures isHead <==> Oldest(base, marked, n)
        ensures alreadyDone <==> AllMarked(base, marked, n)
      {
        HeadIsOldest(Value(), base, marked, n);
      }
      forall base, marked, marks | Represents(Value(), base, marked)
        ensures MarkAll(Value(), marks).wakeups != changed <==> MarkAll(Value(), marks).head != Value().head
      {
        NoLostWakeup(Value(), base, marked, marks);
      }
    }

    method MarkDone(n: int)
      modifies this
      ensures Value() == Mark(old(Value()), n)
    {
      if n < head {
        return;
      }
      done := done + {n};
      var advanced := false;
      ghost var start := done;
      while head in done
        invariant old(head) <= head && wakeups == old(wakeups)
        invariant Advance(head, done) == Advance(old(head), start)
        invariant advanced == (head != old(head))
        decreases |done|
      {
        assert |done - {head}| < |done|;
        done := done - {head};
        head := head + 1;
        advanced := true;
      }
      if advanced {
        wakeups := wakeups + 1;
      }
    }
  }
}
