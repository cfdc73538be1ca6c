/**
 Selections one after the other: which of them explore, and how the lists take turns
 (`SelectionForDC`, native/tgwsproxy/tgwsroute/cfpool.go).
 */
module CfRotation {
  import opened CfPool
  import opened CfSelection

  /** What of the pool decides whether a selection explores and which domains lead. */
  datatype Turns = Turns(count: nat, cached: seq<Name>, cachedCursor: nat, builtin: seq<Name>, builtinCursor: nat)

  function TurnsOf(p: Pool, dc: int): Turns {
    Turns(SelectionsOf(p, dc), p.cached, p.cachedCursor, p.builtin, p.builtinCursor)
  }

  function NextTurns(t: Turns, counts: bool): Turns {
    Turns(t.count + (if counts then 1 else 0), t.cached, NextCursor(t.cached, t.cachedCursor),
          t.builtin, NextCursor(t.builtin, t.builtinCursor))
  }

  lemma OneSelection(p: Pool, dc: int, other: int)
    ensures TurnsOf(Selected(p, dc), other) == NextTurns(TurnsOf(p, other), other == dc)
  {
  }

  /** The pool after selections for these data centres. */
  function SelectedAll(p: Pool, dcs: seq<int>): Pool
    decreases |dcs|
  {
    if dcs == [] then p else SelectedAll(Selected(p, dcs[0]), dcs[1..])
  }

  function TurnsAfter(t: Turns, dcs: seq<int>, dc: int): Turns
    decreases |dcs|
  {
    if dcs == [] then t else TurnsAfter(NextTurns(t, dcs[0] == dc), dcs[1..], dc)
  }

  lemma {:induction false} TurnsFollow(p: Pool, dcs: seq<int>, dc: int)
    ensures TurnsOf(SelectedAll(p, dcs), dc) == TurnsAfter(TurnsOf(p, dc), dcs, dc)
    decreases |dcs|
  {
    if dcs != [] {
      OneSelection(p, dcs[0], dc);
      TurnsFollow(Selected(p, dcs[0]), dcs[1..], dc);
    }
  }

  /** How many of the selections are for this data centre. */
  function Own(dcs: seq<int>, dc: int): nat
    decreases |dcs|
  {
    if dcs == [] then 0 else (if dcs[0] == dc then 1 else 0) + Own(dcs[1..], dc)
  }

  lemma {:induction false} OwnCounted(t: Turns, dcs: seq<int>, dc: int)
    ensures var u := TurnsAfter(t, dcs, dc);
            u.count == t.count + Own(dcs, dc) && u.cached == t.cached && u.builtin == t.builtin
    decreases |dcs|
  {
    if dcs != [] {
      OwnCounted(NextTurns(t, dcs[0] == dc), dcs[1..], dc);
    }
  }

  /** A selection made on q explores: it promotes a candidate of the ranking. */
  ghost predicate Explores(q: Pool, dc: int) {
    forall cs :: Ranked(q, dc, cs) == Promoted(StableSort(cs))
  }

  ghost predicate FollowsRanking(q: Pool, dc: int) {
    forall cs :: Ranked(q, dc, cs) == StableSort(cs)
  }

  lemma RankedIf(q: Pool, dc: int, cs: seq<Candidate>)
    ensures Ranked(q, dc, cs) == if TurnsOf(q, dc).count % 5 == 4 then Promoted(StableSort(cs)) else StableSort(cs)
  {
    Fifth(SelectionsOf(q, dc));
  }

  lemma Fifth(n: nat)
    ensures (n + 1) % EXPLORATION_INTERVAL == 0 <==> n % 5 == 4
  {
  }

  /** Every fifth selection of a data centre explores, counted from a new pool and whatever other data centres
      select in between; all others follow the ranking. */
  lemma EveryFifthExplores(p: Pool, dcs: seq<int>, dc: int)
    requires p == NewPool()
    ensures if Own(dcs, dc) % 5 == 4 then Explores(SelectedAll(p, dcs), dc)
            else FollowsRanking(SelectedAll(p, dcs), dc)
  {
    TurnsFollow(p, dcs, dc);
    OwnCounted(TurnsOf(p, dc), dcs, dc);
    ExploresBy(SelectedAll(p, dcs), dc, Own(dcs, dc));
  }

  lemma ExploresBy(q: Pool, dc: int, n: nat)
    requires TurnsOf(q, dc).count == n
    ensures if n % 5 == 4 then Explores(q, dc) else FollowsRanking(q, dc)
  {
    forall cs
      ensures Ranked(q, dc, cs) == if n % 5 == 4 then Promoted(StableSort(cs)) else StableSort(cs)
    {
      RankedIf(q, dc, cs);
    }
  }

  // ---------------------------------------------------------------------------
  // Turns
  // ---------------------------------------------------------------------------

  lemma Times(d: nat, n: nat)
    requires d >= 1
    ensures d * n >= n
  {
  }

  lemma Remainder(x: int, n: nat, q: int, r: int)
    requires n > 0 && x == q * n + r && 0 <= r < n
    ensures x % n == r
  {
    var q', r' := x / n, x % n;
    assert x == q' * n + r';
    assert (q - q') * n == q * n - q' * n && (q' - q) * n == q' * n - q * n;
    if q > q' {
      Times(q - q', n);
    } else if q < q' {
      Times(q' - q, n);
    }
  }

  lemma ModAdd(a: nat, b: nat, n: nat)
    requires n > 0
    ensures (a + b) % n == (a % n + b) % n
  {
    var q, c := a / n, a % n + b;
    var p := c / n;
    assert a == q * n + a % n && c == p * n + c % n;
    assert (q + p) * n == q * n + p * n;
    Remainder(a + b, n, q + p, c % n);
  }

  function CursorAfter(names: seq<Name>, cursor: nat, k: nat): nat
    decreases k
  {
    if k == 0 then cursor else CursorAfter(names, NextCursor(names, cursor), k - 1)
  }

  lemma {:induction false} CursorsAfter(t: Turns, dcs: seq<int>, dc: int)
    ensures var u := TurnsAfter(t, dcs, dc);
            && u.cachedCursor == CursorAfter(t.cached, t.cachedCursor, |dcs|)
            && u.builtinCursor == CursorAfter(t.builtin, t.builtinCursor, |dcs|)
    decreases |dcs|
  {
    if dcs != [] {
      CursorsAfter(NextTurns(t, dcs[0] == dc), dcs[1..], dc);
    }
  }

  lemma {:induction false} CursorAfterMod(names: seq<Name>, cursor: nat, k: nat)
    requires names != []
    ensures CursorAfter(names, cursor, k) % |names| == (cursor + k) % |names|
    decreases k
  {
    if k > 0 {
      CursorAfterMod(names, NextCursor(names, cursor), k - 1);
      AfterOne(cursor, k - 1, |names|);
    }
  }

  lemma AfterOne(cursor: nat, k: nat, n: nat)
    requires n > 0
    ensures ((cursor + 1) % n + k) % n == (cursor + 1 + k) % n
  {
    ModAdd(cursor + 1, k, n);
  }

  predicate Leads(names: seq<Name>, cursor: nat, d: Name) {
    names != [] && Rotated(names, cursor)[0] == d
  }

  /** The cached and the built-in domains take turns at the head of their lists, whatever data centres the
      selections are for. */
  lemma ListsTakeTurns(p: Pool, dcs: seq<int>, q: Pool)
    requires q == SelectedAll(p, dcs)
    ensures p.cached != [] ==>
              Leads(q.cached, q.cachedCursor, p.cached[(p.cachedCursor + |dcs|) % |p.cached|])
    ensures p.builtin != [] ==>
              Leads(q.builtin, q.builtinCursor, p.builtin[(p.builtinCursor + |dcs|) % |p.builtin|])
  {
    TurnsFollow(p, dcs, 0);
    LeadsBy(p, q, TurnsOf(p, 0), TurnsOf(q, 0), dcs);
  }

  lemma LeadsBy(p: Pool, q: Pool, t: Turns, u: Turns, dcs: seq<int>)
    requires t == TurnsOf(p, 0) && u == TurnsOf(q, 0) && u == TurnsAfter(t, dcs, 0)
    ensures p.cached != [] ==>
              Leads(q.cached, q.cachedCursor, p.cached[(p.cachedCursor + |dcs|) % |p.cached|])
    ensures p.builtin != [] ==>
              Leads(q.builtin, q.builtinCursor, p.builtin[(p.builtinCursor + |dcs|) % |p.builtin|])
  {
    TurnsLead(t, u, dcs, 0);
  }

  lemma TurnsLead(t: Turns, u: Turns, dcs: seq<int>, dc: int)
    requires u == TurnsAfter(t, dcs, dc)
    ensures t.cached != [] ==>
              Leads(u.cached, u.cachedCursor, t.cached[(t.cachedCursor + |dcs|) % |t.cached|])
    ensures t.builtin != [] ==>
              Leads(u.builtin, u.builtinCursor, t.builtin[(t.builtinCursor + |dcs|) % |t.builtin|])
  {
    OwnCounted(t, dcs, dc);
    CursorsAfter(t, dcs, dc);
    if t.cached != [] {
      CursorAfterMod(t.cached, t.cachedCursor, |dcs|);
    }
    if t.builtin != [] {
      CursorAfterMod(t.builtin, t.builtinCursor, |dcs|);
    }
  }
}
