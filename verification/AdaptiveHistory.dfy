/**
 What an entry of the route statistics says about the events it has seen
 (`RecordSuccess`, `RecordFailureClassified`, `ResetCurrentProfile`,
 native/tgwsproxy/tgwsroute/adaptive.go).
 */
module AdaptiveHistory {
  import opened AdaptiveStores
  import opened RouteStats
  import opened Text

  // ---------------------------------------------------------------------------
  // The events of one key
  // ---------------------------------------------------------------------------

  function ProfileAfter(profile: string, op: Op): string {
    match op
    case SetProfile(id) => if id == "" then "unknown" else id
    case _ => profile
  }

  /** A success, or a failure that counts, of just this key. */
  predicate Concerns(profile: string, op: Op, key: StatKey) {
    || (op.Succeed? && key == StatKey(profile, op.route, op.dc, op.media))
    || (op.Fail? && !op.failure.neutral && key == StatKey(profile, op.route, op.dc, op.media))
  }

  type Event = op: Op | op.Succeed? || op.Fail? witness Succeed(0, "", 0, false, 0)

  function Events(profile: string, ops: seq<Op>, key: StatKey): seq<Event>
    decreases |ops|
  {
    if ops == [] then []
    else
      (if Concerns(profile, ops[0], key) then [ops[0]] else []) + Events(ProfileAfter(profile, ops[0]), ops[1..], key)
  }

  ghost predicate Erases(op: Op) {
    op.ResetAll? || op.ResetProfile? || op.Load?
  }

  function Counted(st: RouteStat, event: Event): RouteStat {
    match event
    case Succeed(now, _, _, _, latencyMs) => Succeeded(st, now, latencyMs)
    case Fail(now, _, _, _, failure, latencyMs) => Failed(st, now, failure, latencyMs)
  }

  function After(st: RouteStat, h: seq<Event>): RouteStat
    decreases |h|
  {
    if h == [] then st else After(Counted(st, h[0]), h[1..])
  }

  ghost predicate BarFree(key: StatKey) {
    Free(key.profile, '|') && Free(key.route, '|')
  }

  lemma StepEntry(s: Store, op: Op, key: StatKey)
    requires BarFree(key) && !Erases(op)
    ensures Apply(s, op).profile == ProfileAfter(s.profile, op)
    ensures StatFor(Apply(s, op), key)
         == if Concerns(s.profile, op, key) then Counted(StatFor(s, key), op) else StatFor(s, key)
  {
    if op.Look? || op.Succeed? || op.Fail? {
      var other := StatKey(s.profile, op.route, op.dc, op.media);
      if KeyString(other) == KeyString(key) {
        SameBars(key, other);
      }
    }
  }

  /** Whatever else happens in between, an entry depends on the events of its own key alone. */
  lemma {:induction false} EntryAfter(s: Store, ops: seq<Op>, key: StatKey)
    requires BarFree(key) && (forall i :: 0 <= i < |ops| ==> !Erases(ops[i]))
    ensures StatFor(Run(s, ops), key) == After(StatFor(s, key), Events(s.profile, ops, key))
    decreases |ops|
  {
    if ops != [] {
      var s1 := Apply(s, ops[0]);
      StepEntry(s, ops[0], key);
      EntryAfter(s1, ops[1..], key);
      var rest := Events(s1.profile, ops[1..], key);
      if Concerns(s.profile, ops[0], key) {
        assert ([ops[0]] + rest)[1..] == rest;
      } else {
        assert [] + rest == rest;
      }
    }
  }

  // ---------------------------------------------------------------------------
  // What the entry says of them
  // ---------------------------------------------------------------------------

  function Successes(h: seq<Event>): nat {
    if h == [] then 0 else (if h[0].Succeed? then 1 else 0) + Successes(h[1..])
  }

  /** Each failure counts once in the row, and as often again as its kind is penalised. */
  function Penalty(h: seq<Event>): nat {
    if h == [] then 0 else (if h[0].Fail? then 1 + h[0].failure.extra else 0) + Penalty(h[1..])
  }

  ghost predicate LastSuccess(h: seq<Event>, i: int) {
    0 <= i < |h| && h[i].Succeed? && forall j :: i < j < |h| ==> !h[j].Succeed?
  }

  ghost predicate LastFailure(h: seq<Event>, i: int) {
    0 <= i < |h| && h[i].Fail? && forall j :: i < j < |h| ==> !h[j].Fail?
  }

  /** The counts are the numbers of events; the row of failures begins after the last success. */
  ghost predicate TellsCounts(st: RouteStat, h: seq<Event>, after: RouteStat) {
    && after.key == st.key
    && after.successCount == st.successCount + Successes(h)
    && after.failureCount == st.failureCount + |h| - Successes(h)
    && (forall i :: LastSuccess(h, i) ==> after.lastSuccessAt == h[i].now && after.consecutive == Penalty(h[i + 1..]))
    && ((forall i :: 0 <= i < |h| ==> !h[i].Succeed?)
        ==> after.lastSuccessAt == st.lastSuccessAt && after.consecutive == st.consecutive + Penalty(h))
  }

  /** The times and the reason are those of the last event of their kind. */
  ghost predicate TellsTimes(st: RouteStat, h: seq<Event>, after: RouteStat) {
    && (forall i :: LastFailure(h, i)
          ==> after.lastFailureAt == h[i].now && after.lastFailureReason == h[i].failure.tag)
    && ((forall i :: 0 <= i < |h| ==> !h[i].Fail?)
        ==> after.lastFailureAt == st.lastFailureAt && after.lastFailureReason == st.lastFailureReason)
    && after.lastUsedAt == if h == [] then st.lastUsedAt else h[|h| - 1].now
  }

  lemma {:induction false} EntryTells(st: RouteStat, h: seq<Event>)
    ensures TellsCounts(st, h, After(st, h)) && TellsTimes(st, h, After(st, h))
    decreases |h|
  {
    if h != [] {
      var st1 := Counted(st, h[0]);
      EntryTells(st1, h[1..]);
      CountsCons(st, h, st1, After(st, h));
      TimesCons(st, h, st1, After(st, h));
    }
  }

  lemma CountsCons(st: RouteStat, h: seq<Event>, st1: RouteStat, after: RouteStat)
    requires h != [] && st1 == Counted(st, h[0]) && TellsCounts(st1, h[1..], after)
    ensures TellsCounts(st, h, after)
  {
    var t := h[1..];
    assert forall j :: 0 < j < |h| ==> h[j] == t[j - 1];
    assert forall j :: 0 <= j < |t| ==> t[j] == h[j + 1];
    forall i | LastSuccess(h, i)
      ensures after.lastSuccessAt == h[i].now && after.consecutive == Penalty(h[i + 1..])
    {
      if i > 0 {
        assert LastSuccess(t, i - 1) && h[i + 1..] == t[i..];
      }
    }
  }

  lemma TimesCons(st: RouteStat, h: seq<Event>, st1: RouteStat, after: RouteStat)
    requires h != [] && st1 == Counted(st, h[0]) && TellsTimes(st1, h[1..], after)
    ensures TellsTimes(st, h, after)
  {
    var t := h[1..];
    assert forall j :: 0 < j < |h| ==> h[j] == t[j - 1];
    assert forall j :: 0 <= j < |t| ==> t[j] == h[j + 1];
    forall i | LastFailure(h, i)
      ensures after.lastFailureAt == h[i].now && after.lastFailureReason == h[i].failure.tag
    {
      if i > 0 {
        assert LastFailure(t, i - 1);
      }
    }
  }

  lemma {:induction false} AfterSnoc(st: RouteStat, h: seq<Event>, last: Event)
    ensures After(st, h + [last]) == Counted(After(st, h), last)
    decreases |h|
  {
    if h == [] {
      assert [last][1..] == [];
    } else {
      assert (h + [last])[1..] == h[1..] + [last];
      AfterSnoc(Counted(st, h[0]), h[1..], last);
    }
  }

  /** A success ends the cooldown; a failure starts one exactly when the row that it makes longer has reached
      the limit. A latency of a success moves the average a quarter of the way, rounded towards zero. */
  lemma LastEventTells(st: RouteStat, h: seq<Event>, last: Event)
    ensures var before, after := After(st, h), After(st, h + [last]);
            && (last.Succeed? ==> after.cooldownUntil == 0)
            && (last.Fail? ==>
                  after.cooldownUntil == if after.consecutive >= last.failure.cooldownAfter
                                         then last.now + last.failure.cooldownMs else before.cooldownUntil)
            && after.lastLatencyMs == (if last.latencyMs > 0 then last.latencyMs else before.lastLatencyMs)
            && AverageMoves(before.averageLatencyMs, if last.Succeed? then last.latencyMs else 0,
                            after.averageLatencyMs)
  {
    AfterSnoc(st, h, last);
  }

  ghost predicate AverageMoves(old': int, latency: int, new': int) {
    if latency <= 0 then new' == old'
    else if old' == 0 then new' == latency
    else
      var total := 3 * old' + latency;
      if total >= 0 then 4 * new' <= total < 4 * new' + 4 else 4 * new' - 4 < total <= 4 * new'
  }

  /** From a new store the counts of a key are the numbers of its events, and nothing else is on record. */
  lemma CountsFromNew(profile: string, ops: seq<Op>, key: StatKey)
    requires BarFree(key) && (forall i :: 0 <= i < |ops| ==> !Erases(ops[i]))
    ensures var st, h := StatFor(Run(Store(profile, map[], map[]), ops), key), Events(profile, ops, key);
            && st.key == key && st.successCount == Successes(h) && st.failureCount == |h| - Successes(h)
            && (h == [] ==> st == RouteStat(key, 0, 0, 0, 0, "", 0, 0, 0, 0, 0))
  {
    EntryAfter(Store(profile, map[], map[]), ops, key);
    EntryTells(NewStat(key), Events(profile, ops, key));
  }

  // ---------------------------------------------------------------------------
  // Erasing
  // ---------------------------------------------------------------------------

  /** A reset of the current profile forgets its entries and its last good routes, and no others. */
  lemma ResetForgets(s: Store, key: StatKey)
    requires OwnStats(s.stats) && BarFree(key)
    ensures StatFor(Apply(s, ResetProfile), key) == if key.profile == s.profile then NewStat(key) else StatFor(s, key)
    ensures StatFor(Apply(s, ResetAll), key) == NewStat(key)
  {
    var k := KeyString(key);
    if k in s.stats {
      SameBars(key, s.stats[k].key);
      KeyProfile(s, k, key);
    }
  }

  lemma KeyProfile(s: Store, k: string, key: StatKey)
    requires k in s.stats && s.stats[k].key == key
    ensures k in Apply(s, ResetProfile).stats <==> key.profile != s.profile
    ensures key.profile != s.profile ==> Apply(s, ResetProfile).stats[k] == s.stats[k]
  {
  }

  lemma ResetForgetsGoods(s: Store, k: string)
    ensures k in Apply(s, ResetProfile).goods <==> k in s.goods && s.goods[k].profile != s.profile
    ensures k in Apply(s, ResetProfile).goods ==> Apply(s, ResetProfile).goods[k] == s.goods[k]
    ensures Apply(s, ResetAll).goods == map[]
  {
  }

  /** The last good route of a place is that of the last success there under its profile. */
  lemma GoodAfter(s: Store, op: Op, profile: string, dc: int, media: bool)
    requires !Erases(op)
    ensures var k, s' := GoodKey(profile, dc, media), Apply(s, op);
            if op.Succeed? && s.profile == profile && op.dc == dc && op.media == media
            then k in s'.goods && s'.goods[k] == LastGood(profile, dc, media, op.route, op.now)
            else (k in s'.goods <==> k in s.goods) && (k in s.goods ==> s'.goods[k] == s.goods[k])
  {
    if op.Succeed? {
      GoodKeyInjective(s.profile, op.dc, op.media, profile, dc, media);
    }
  }
}
