/**
 The keyed store of route statistics (`AdaptiveStore`,
 native/tgwsproxy/tgwsroute/adaptive.go; `LoadEncodedStats`,
 native/tgwsproxy/tgwsroute/adaptive_codec.go).
 */
module AdaptiveStores {
  import opened RouteStats
  import opened Text

  // ---------------------------------------------------------------------------
  // Keys
  // ---------------------------------------------------------------------------

  function KeyString(k: StatKey): string {
    k.profile + "|" + k.route + "|" + Decimal(k.dc) + "|" + MediaField(k.media)
  }

  function GoodKey(profile: string, dc: int, media: bool): string {
    profile + "|" + Decimal(dc) + "|" + MediaField(media)
  }

  /** A string is cut at its last bar in one way. */
  lemma LastBar(x: string, y: string, x': string, y': string)
    requires Free(y, '|') && Free(y', '|') && x + "|" + y == x' + "|" + y'
    ensures x == x' && y == y'
  {
    var s := x + "|" + y;
    if |y| < |y'| {
      assert s[|x|] == '|' && s[|x|] == y'[|x| - |x'| - 1];
      FreeAt(y', '|', |x| - |x'| - 1);
    } else if |y'| < |y| {
      assert s[|x'|] == '|' && s[|x'|] == y[|x'| - |x| - 1];
      FreeAt(y, '|', |x'| - |x| - 1);
    } else {
      assert s[..|x|] == x && s[..|x'|] == x';
      assert s[|x| + 1..] == y && s[|x'| + 1..] == y';
    }
  }

  lemma DecimalInjective(i: int, j: int)
    requires Decimal(i) == Decimal(j)
    ensures i == j
  {
    var m: nat, n: nat := if i < 0 then -i else i, if j < 0 then -j else j;
    DigitsRoundTrip(m);
    DigitsRoundTrip(n);
    FirstIsDigit(Digits(m));
    FirstIsDigit(Digits(n));
    if i < 0 && j < 0 {
      assert Digits(m) == Decimal(i)[1..] == Decimal(j)[1..] == Digits(n);
    }
  }

  lemma MediaInjective(a: bool, b: bool)
    requires MediaField(a) == MediaField(b)
    ensures a == b
  {
    assert MediaField(a)[0] == MediaField(b)[0];
  }

  /** Keys whose routes have no bar get different strings, whatever is in their profiles. */
  lemma KeyInjective(a: StatKey, b: StatKey)
    requires Free(a.route, '|') && Free(b.route, '|')
    ensures KeyString(a) == KeyString(b) <==> a == b
  {
    if KeyString(a) == KeyString(b) {
      MediaFree(a.media, '|');
      MediaFree(b.media, '|');
      DecimalFree(a.dc, '|');
      DecimalFree(b.dc, '|');
      LastBar(a.profile + "|" + a.route + "|" + Decimal(a.dc), MediaField(a.media),
              b.profile + "|" + b.route + "|" + Decimal(b.dc), MediaField(b.media));
      LastBar(a.profile + "|" + a.route, Decimal(a.dc), b.profile + "|" + b.route, Decimal(b.dc));
      LastBar(a.profile, a.route, b.profile, b.route);
      DecimalInjective(a.dc, b.dc);
      MediaInjective(a.media, b.media);
    }
  }

  lemma GoodKeyInjective(p: string, dc: int, media: bool, p': string, dc': int, media': bool)
    ensures GoodKey(p, dc, media) == GoodKey(p', dc', media') <==> p == p' && dc == dc' && media == media'
  {
    if GoodKey(p, dc, media) == GoodKey(p', dc', media') {
      MediaFree(media, '|');
      MediaFree(media', '|');
      DecimalFree(dc, '|');
      DecimalFree(dc', '|');
      LastBar(p + "|" + Decimal(dc), MediaField(media), p' + "|" + Decimal(dc'), MediaField(media'));
      LastBar(p, Decimal(dc), p', Decimal(dc'));
      DecimalInjective(dc, dc');
      MediaInjective(media, media');
    }
  }

  function Bars(s: string): nat {
    if s == "" then 0 else (if s[0] == '|' then 1 else 0) + Bars(s[1..])
  }

  lemma {:induction false} BarsAppend(a: string, b: string)
    ensures Bars(a + b) == Bars(a) + Bars(b)
  {
    if a == "" {
      assert a + b == b;
    } else {
      BarsAppend(a[1..], b);
      assert (a + b)[1..] == a[1..] + b;
    }
  }

  lemma {:induction false} FreeIffNoBars(s: string)
    ensures Free(s, '|') <==> Bars(s) == 0
  {
    if s != "" {
      FreeIffNoBars(s[1..]);
    }
  }

  /** A key string has three bars of its own. */
  lemma KeyBars(k: StatKey)
    ensures Bars(KeyString(k)) == Bars(k.profile) + Bars(k.route) + 3
  {
    MediaFree(k.media, '|');
    DecimalFree(k.dc, '|');
    FreeIffNoBars(MediaField(k.media));
    FreeIffNoBars(Decimal(k.dc));
    OneBar();
    BarsAppend(k.profile + "|" + k.route + "|" + Decimal(k.dc) + "|", MediaField(k.media));
    BarsAppend(k.profile + "|" + k.route + "|" + Decimal(k.dc), "|");
    BarsAppend(k.profile + "|" + k.route + "|", Decimal(k.dc));
    BarsAppend(k.profile + "|" + k.route, "|");
    BarsAppend(k.profile + "|", k.route);
    BarsAppend(k.profile, "|");
  }

  lemma OneBar()
    ensures Bars("|") == 1
  {
    assert "|"[1..] == "";
  }

  lemma {:induction false} SplitAtBar(s: string) returns (x: string, y: string)
    requires !Free(s, '|')
    ensures s == x + "|" + y
  {
    if s[0] == '|' {
      x, y := "", s[1..];
    } else {
      x, y := SplitAtBar(s[1..]);
      x := [s[0]] + x;
    }
  }

  /** A bar in the profile or the route can be taken for the one between them. */
  lemma OtherKey(a: StatKey) returns (b: StatKey)
    requires !Free(a.profile, '|') || !Free(a.route, '|')
    ensures b != a && KeyString(b) == KeyString(a)
  {
    if !Free(a.profile, '|') {
      var x, y := SplitAtBar(a.profile);
      b := a.(profile := x, route := y + "|" + a.route);
      assert |x| < |a.profile|;
      assert x + "|" + (y + "|" + a.route) == x + "|" + y + "|" + a.route;
    } else {
      var x, y := SplitAtBar(a.route);
      b := a.(profile := a.profile + "|" + x, route := y);
      assert |y| < |a.route|;
      assert a.profile + "|" + x + "|" + y == a.profile + "|" + (x + "|" + y);
    }
  }

  /** A key is the only one with its string exactly when neither its profile nor its route has a bar. */
  lemma KeyExact(a: StatKey)
    ensures (forall b :: KeyString(b) == KeyString(a) ==> b == a) <==> Free(a.profile, '|') && Free(a.route, '|')
  {
    if Free(a.profile, '|') && Free(a.route, '|') {
      forall b | KeyString(b) == KeyString(a)
        ensures b == a
      {
        SameBars(a, b);
      }
    } else {
      var b := OtherKey(a);
      assert KeyString(b) == KeyString(a);
    }
  }

  lemma SameBars(a: StatKey, b: StatKey)
    requires KeyString(b) == KeyString(a) && Free(a.profile, '|') && Free(a.route, '|')
    ensures b == a
  {
    KeyBars(a);
    KeyBars(b);
    FreeIffNoBars(a.profile);
    FreeIffNoBars(a.route);
    FreeIffNoBars(b.route);
    KeyInjective(a, b);
  }

  // ---------------------------------------------------------------------------
  // The store
  // ---------------------------------------------------------------------------

  datatype Store = Store(profile: string, stats: map<string, RouteStat>, goods: map<string, LastGood>)

  /** What an event says of the route it concerns. */
  datatype Failure = Failure(neutral: bool, extra: nat, tag: string, cooldownAfter: int, cooldownMs: int)

  datatype Op =
    | SetProfile(id: string)
    | Look(route: string, dc: int, media: bool)
    | Succeed(now: int, route: string, dc: int, media: bool, latencyMs: int)
    | Fail(now: int, route: string, dc: int, media: bool, failure: Failure, latencyMs: int)
    | ResetAll
    | ResetProfile
    | Load(text: string)

  function NewStat(key: StatKey): RouteStat {
    RouteStat(key, 0, 0, 0, 0, "", 0, 0, 0, 0, 0)
  }

  /** `statFor`: the entry under the string of the key, or a new one. */
  function StatFor(s: Store, key: StatKey): RouteStat {
    if KeyString(key) in s.stats then s.stats[KeyString(key)] else NewStat(key)
  }

  function Put(s: Store, key: StatKey, st: RouteStat): Store {
    s.(stats := s.stats[KeyString(key) := st])
  }

  /** Go's integer division. */
  function Quotient(a: int, b: nat): int
    requires b > 0
  {
    if a >= 0 then a / b else -(-a / b)
  }

  function Succeeded(st: RouteStat, now: int, latencyMs: int): RouteStat {
    var t := st.(successCount := st.successCount + 1, consecutive := 0, lastSuccessAt := now, lastUsedAt := now,
                 cooldownUntil := 0);
    if latencyMs <= 0 then t
    else
      t.(lastLatencyMs := latencyMs,
         averageLatencyMs := if st.averageLatencyMs == 0 then latencyMs
                             else Quotient(st.averageLatencyMs * 3 + latencyMs, 4))
  }

  function Failed(st: RouteStat, now: int, f: Failure, latencyMs: int): RouteStat {
    var consecutive := st.consecutive + 1 + f.extra;
    st.(failureCount := st.failureCount + 1, consecutive := consecutive, lastFailureAt := now, lastUsedAt := now,
        lastFailureReason := f.tag,
        lastLatencyMs := if latencyMs > 0 then latencyMs else st.lastLatencyMs,
        cooldownUntil := if consecutive >= f.cooldownAfter then now + f.cooldownMs else st.cooldownUntil)
  }

  function PutStats(m: map<string, RouteStat>, stats: seq<RouteStat>): map<string, RouteStat>
    decreases |stats|
  {
    if stats == [] then m else PutStats(m[KeyString(stats[0].key) := stats[0]], stats[1..])
  }

  function PutGoods(m: map<string, LastGood>, goods: seq<LastGood>): map<string, LastGood>
    decreases |goods|
  {
    if goods == [] then m
    else PutGoods(m[GoodKey(goods[0].profile, goods[0].dc, goods[0].media) := goods[0]], goods[1..])
  }

  function Loaded(s: Store, text: string): Store {
    var d := Decode(text);
    s.(stats := PutStats(s.stats, d.stats), goods := PutGoods(s.goods, d.goods))
  }

  function Apply(s: Store, op: Op): Store {
    match op
    case SetProfile(id) => s.(profile := if id == "" then "unknown" else id)
    case Look(route, dc, media) =>
      var key := StatKey(s.profile, route, dc, media);
      Put(s, key, StatFor(s, key))
    case Succeed(now, route, dc, media, latencyMs) =>
      var key := StatKey(s.profile, route, dc, media);
      Put(s, key, Succeeded(StatFor(s, key), now, latencyMs))
        .(goods := s.goods[GoodKey(s.profile, dc, media) := LastGood(s.profile, dc, media, route, now)])
    case Fail(now, route, dc, media, failure, latencyMs) =>
      if failure.neutral then s
      else
        var key := StatKey(s.profile, route, dc, media);
        Put(s, key, Failed(StatFor(s, key), now, failure, latencyMs))
    case ResetAll => s.(stats := map[], goods := map[])
    case ResetProfile =>
      s.(stats := map k | k in s.stats && s.stats[k].key.profile != s.profile :: s.stats[k],
         goods := map k | k in s.goods && s.goods[k].profile != s.profile :: s.goods[k])
    case Load(text) => Loaded(s, text)
  }

  /** Every entry sits under its own key. */
  ghost predicate OwnStats(m: map<string, RouteStat>) {
    forall k :: k in m ==> KeyString(m[k].key) == k
  }

  ghost predicate OwnGoods(m: map<string, LastGood>) {
    forall k :: k in m ==> GoodKey(m[k].profile, m[k].dc, m[k].media) == k
  }

  ghost predicate Inv(s: Store) {
    OwnStats(s.stats) && OwnGoods(s.goods)
  }

  lemma {:induction false} PutStatsOwn(m: map<string, RouteStat>, stats: seq<RouteStat>)
    requires OwnStats(m)
    ensures OwnStats(PutStats(m, stats))
    decreases |stats|
  {
    if stats != [] {
      PutStatsOwn(m[KeyString(stats[0].key) := stats[0]], stats[1..]);
    }
  }

  lemma {:induction false} PutGoodsOwn(m: map<string, LastGood>, goods: seq<LastGood>)
    requires OwnGoods(m)
    ensures OwnGoods(PutGoods(m, goods))
    decreases |goods|
  {
    if goods != [] {
      PutGoodsOwn(m[GoodKey(goods[0].profile, goods[0].dc, goods[0].media) := goods[0]], goods[1..]);
    }
  }

  lemma StatForOwn(s: Store, key: StatKey, st: RouteStat)
    requires Inv(s) && st.key == StatFor(s, key).key
    ensures Inv(Put(s, key, st))
  {
  }

  lemma ApplyInv(s: Store, op: Op)
    requires Inv(s)
    ensures Inv(Apply(s, op))
  {
    match op
    case SetProfile(_) =>
    case Look(route, dc, media) =>
      var key := StatKey(s.profile, route, dc, media);
      StatForOwn(s, key, StatFor(s, key));
    case Succeed(now, route, dc, media, latencyMs) =>
      var key := StatKey(s.profile, route, dc, media);
      StatForOwn(s, key, Succeeded(StatFor(s, key), now, latencyMs));
    case Fail(now, route, dc, media, failure, latencyMs) =>
      var key := StatKey(s.profile, route, dc, media);
      StatForOwn(s, key, Failed(StatFor(s, key), now, failure, latencyMs));
    case ResetAll =>
    case ResetProfile =>
    case Load(text) =>
      PutStatsOwn(s.stats, Decode(text).stats);
      PutGoodsOwn(s.goods, Decode(text).goods);
  }

  function Run(s: Store, ops: seq<Op>): Store
    decreases |ops|
  {
    if ops == [] then s else Run(Apply(s, ops[0]), ops[1..])
  }

  /** In every reachable store, whatever text was loaded, every entry sits under its own key. */
  lemma {:induction false} RunInv(s: Store, ops: seq<Op>)
    requires Inv(s)
    ensures Inv(Run(s, ops))
    decreases |ops|
  {
    if ops != [] {
      ApplyInv(s, ops[0]);
      RunInv(Apply(s, ops[0]), ops[1..]);
    }
  }

  /** Between bar-free routes, a lookup never yields the entry of another key. */
  lemma StatForExact(s: Store, key: StatKey)
    requires Inv(s) && Free(key.route, '|') && (forall k :: k in s.stats ==> Free(s.stats[k].key.route, '|'))
    ensures StatFor(s, key).key == key
  {
    if KeyString(key) in s.stats {
      KeyInjective(s.stats[KeyString(key)].key, key);
    }
  }

  /** Whatever the store holds, a lookup yields the entry of its own key exactly when that key has no bar
      in its profile or its route. */
  lemma StatForExactIff(key: StatKey)
    ensures (forall s :: Inv(s) ==> StatFor(s, key).key == key) <==> Free(key.profile, '|') && Free(key.route, '|')
  {
    if Free(key.profile, '|') && Free(key.route, '|') {
      forall s | Inv(s)
        ensures StatFor(s, key).key == key
      {
        if KeyString(key) in s.stats {
          SameBars(key, s.stats[KeyString(key)].key);
        }
      }
    } else {
      var b := OtherKey(key);
      var s := Store("", map[KeyString(b) := NewStat(b)], map[]);
      assert Inv(s) && StatFor(s, key).key == b;
    }
  }

  /** A text with one statistic, loaded into any store, answers for every key that shares its string. */
  lemma LoadedAnswersFor(s: Store, a: StatKey, b: StatKey)
    requires PlainRoute(a.route) && IsInt64(a.dc) && Free(a.profile, ':') && Free(a.profile, ';')
    requires TrimRight(a.profile) == a.profile && KeyString(a) == KeyString(b)
    ensures StatFor(Apply(s, Load(Encode([NewStat(a)], []))), b).key == a
  {
    var st := NewStat(a);
    assert AllStats([st]) by {
      assert [st][1..] == [];
    }
    RoundTrip([st], []);
    NormalIff(st);
    OneLoaded(s, st, b);
  }

  lemma OneLoaded(s: Store, st: RouteStat, b: StatKey)
    requires Normal(st).key == st.key && KeyString(st.key) == KeyString(b)
    requires Decode(Encode([st], [])) == Decoded(Normals([st]), [])
    ensures StatFor(Loaded(s, Encode([st], [])), b).key == st.key
  {
    assert Normals([st]) == [Normal(st)] + Normals([st][1..]) == [Normal(st)];
    assert [Normal(st)][1..] == [];
    assert PutStats(s.stats, [Normal(st)]) == s.stats[KeyString(b) := Normal(st)];
  }

  /** The failing input: whatever is in the store, after loading this text the lookup of profile "p|x" and
      a known route yields the entry of profile "p" and a route no code knows. */
  lemma LoadedBarCollides(s: Store)
    ensures var loaded, asked := StatKey("p", "x|direct_ws", 2, false), StatKey("p|x", "direct_ws", 2, false);
            loaded != asked && StatFor(Apply(s, Load(Encode([NewStat(loaded)], []))), asked).key == loaded
  {
    var loaded, asked := StatKey("p", "x|direct_ws", 2, false), StatKey("p|x", "direct_ws", 2, false);
    assert "p" + "|" + "x|direct_ws" == "p|x" + "|" + "direct_ws";
    BarRoutePlain();
    LetterPlain();
    LoadedAnswersFor(s, loaded, asked);
  }

  lemma BarRoutePlain()
    ensures PlainRoute("x|direct_ws")
  {
    FreeOfAll("x|direct_ws", ':');
    FreeOfAll("x|direct_ws", ';');
  }

  lemma LetterPlain()
    ensures Free("p", ':') && Free("p", ';') && TrimRight("p") == "p"
  {
  }

  // ---------------------------------------------------------------------------
  // Persistence
  // ---------------------------------------------------------------------------

  /** The entries but those still to come. */
  ghost predicate SomeStats(stats: seq<RouteStat>, m: map<string, RouteStat>, left: set<string>) {
    && (forall i :: 0 <= i < |stats| ==> KeyString(stats[i].key) in m && m[KeyString(stats[i].key)] == stats[i])
    && (forall k :: k in m && k !in left ==> m[k] in stats)
  }

  lemma OneMoreStat(stats: seq<RouteStat>, m: map<string, RouteStat>, left: set<string>, k: string)
    requires OwnStats(m) && SomeStats(stats, m, left) && k in m
    ensures SomeStats(stats + [m[k]], m, left - {k})
  {
  }

  ghost predicate SomeGoods(goods: seq<LastGood>, m: map<string, LastGood>, left: set<string>) {
    && (forall i :: 0 <= i < |goods| ==>
          var k := GoodKey(goods[i].profile, goods[i].dc, goods[i].media); k in m && m[k] == goods[i])
    && (forall k :: k in m && k !in left ==> m[k] in goods)
  }

  lemma OneMoreGood(goods: seq<LastGood>, m: map<string, LastGood>, left: set<string>, k: string)
    requires OwnGoods(m) && SomeGoods(goods, m, left) && k in m
    ensures SomeGoods(goods + [m[k]], m, left - {k})
  {
  }

  /** A list of all entries of a map, in any order. */
  ghost predicate ListsStats(stats: seq<RouteStat>, m: map<string, RouteStat>) {
    SomeStats(stats, m, {})
  }

  ghost predicate ListsGoods(goods: seq<LastGood>, m: map<string, LastGood>) {
    SomeGoods(goods, m, {})
  }

  ghost predicate Persistent(s: Store) {
    && (forall k :: k in s.stats ==> WellFormed(s.stats[k]) && Normal(s.stats[k]).key == s.stats[k].key)
    && (forall k :: k in s.goods ==> GoodWellFormed(s.goods[k]) && GoodNormal(s.goods[k]) == s.goods[k])
  }

  /** Putting entries that all come from one map, each under its key, only fills in that map. */
  lemma {:induction false} PutStatsWithin(m: map<string, RouteStat>, stats: seq<RouteStat>,
                                          whole: map<string, RouteStat>)
    requires forall k :: k in m ==> k in whole && m[k] == whole[k]
    requires forall i :: 0 <= i < |stats| ==>
               KeyString(stats[i].key) in whole && whole[KeyString(stats[i].key)] == stats[i]
    ensures forall k :: k in PutStats(m, stats) ==> k in whole && PutStats(m, stats)[k] == whole[k]
    ensures forall k :: k in m ==> k in PutStats(m, stats)
    ensures forall i :: 0 <= i < |stats| ==> KeyString(stats[i].key) in PutStats(m, stats)
    decreases |stats|
  {
    if stats != [] {
      var m1 := m[KeyString(stats[0].key) := stats[0]];
      PutStatsWithin(m1, stats[1..], whole);
      forall i | 0 <= i < |stats|
        ensures KeyString(stats[i].key) in PutStats(m, stats)
      {
        if i > 0 {
          assert stats[i] == stats[1..][i - 1];
        } else {
          assert KeyString(stats[0].key) in m1;
        }
      }
    }
  }

  lemma {:induction false} PutGoodsWithin(m: map<string, LastGood>, goods: seq<LastGood>, whole: map<string, LastGood>)
    requires forall k :: k in m ==> k in whole && m[k] == whole[k]
    requires forall i :: 0 <= i < |goods| ==>
               var k := GoodKey(goods[i].profile, goods[i].dc, goods[i].media); k in whole && whole[k] == goods[i]
    ensures forall k :: k in PutGoods(m, goods) ==> k in whole && PutGoods(m, goods)[k] == whole[k]
    ensures forall k :: k in m ==> k in PutGoods(m, goods)
    ensures forall i :: 0 <= i < |goods| ==>
              GoodKey(goods[i].profile, goods[i].dc, goods[i].media) in PutGoods(m, goods)
    decreases |goods|
  {
    if goods != [] {
      var m1 := m[GoodKey(goods[0].profile, goods[0].dc, goods[0].media) := goods[0]];
      PutGoodsWithin(m1, goods[1..], whole);
      forall i | 0 <= i < |goods|
        ensures GoodKey(goods[i].profile, goods[i].dc, goods[i].media) in PutGoods(m, goods)
      {
        if i > 0 {
          assert goods[i] == goods[1..][i - 1];
        } else {
          assert GoodKey(goods[0].profile, goods[0].dc, goods[0].media) in m1;
        }
      }
    }
  }

  function NormalMap(m: map<string, RouteStat>): map<string, RouteStat> {
    map k | k in m :: Normal(m[k])
  }

  lemma {:induction false} NormalsAt(stats: seq<RouteStat>)
    ensures |Normals(stats)| == |stats|
    ensures forall i :: 0 <= i < |stats| ==> Normals(stats)[i] == Normal(stats[i])
  {
    if stats != [] {
      NormalsAt(stats[1..]);
    }
  }

  lemma StatsRestored(stats: seq<RouteStat>, m: map<string, RouteStat>)
    requires OwnStats(m) && ListsStats(stats, m) && (forall k :: k in m ==> Normal(m[k]).key == m[k].key)
    ensures PutStats(map[], Normals(stats)) == NormalMap(m)
  {
    NormalsListed(stats, m);
    forall k | k in m
      ensures exists i :: 0 <= i < |Normals(stats)| && KeyString(Normals(stats)[i].key) == k
    {
      NormalListed(stats, m, k);
    }
    Restored(Normals(stats), NormalMap(m));
  }

  lemma Restored(stats: seq<RouteStat>, whole: map<string, RouteStat>)
    requires forall i :: 0 <= i < |stats| ==>
               KeyString(stats[i].key) in whole && whole[KeyString(stats[i].key)] == stats[i]
    requires forall k :: k in whole ==> exists i :: 0 <= i < |stats| && KeyString(stats[i].key) == k
    ensures PutStats(map[], stats) == whole
  {
    PutStatsWithin(map[], stats, whole);
  }

  lemma NormalsListed(stats: seq<RouteStat>, m: map<string, RouteStat>)
    requires ListsStats(stats, m) && (forall k :: k in m ==> Normal(m[k]).key == m[k].key)
    ensures var normals := Normals(stats);
            forall i :: 0 <= i < |normals| ==>
              KeyString(normals[i].key) in NormalMap(m) && NormalMap(m)[KeyString(normals[i].key)] == normals[i]
  {
    NormalsAt(stats);
    var normals := Normals(stats);
    forall i | 0 <= i < |normals|
      ensures KeyString(normals[i].key) in NormalMap(m) && NormalMap(m)[KeyString(normals[i].key)] == normals[i]
    {
      assert m[KeyString(stats[i].key)] == stats[i];
    }
  }

  lemma NormalListed(stats: seq<RouteStat>, m: map<string, RouteStat>, k: string)
    requires OwnStats(m) && ListsStats(stats, m) && k in m && Normal(m[k]).key == m[k].key
    ensures exists i :: 0 <= i < |Normals(stats)| && KeyString(Normals(stats)[i].key) == k
  {
    NormalsAt(stats);
    var i :| 0 <= i < |stats| && stats[i] == m[k];
    assert Normals(stats)[i] == Normal(m[k]);
  }

  lemma GoodsRestored(goods: seq<LastGood>, m: map<string, LastGood>)
    requires OwnGoods(m) && ListsGoods(goods, m)
    ensures PutGoods(map[], goods) == m
  {
    PutGoodsWithin(map[], goods, m);
    forall k | k in m
      ensures k in PutGoods(map[], goods)
    {
      var i :| 0 <= i < |goods| && goods[i] == m[k];
      assert GoodKey(goods[i].profile, goods[i].dc, goods[i].media) == k;
    }
  }

  lemma {:induction false} AllStatsOf(stats: seq<RouteStat>)
    requires forall i :: 0 <= i < |stats| ==> WellFormed(stats[i])
    ensures AllStats(stats)
  {
    if stats != [] {
      AllStatsOf(stats[1..]);
    }
  }

  lemma {:induction false} AllGoodsOf(goods: seq<LastGood>)
    requires forall i :: 0 <= i < |goods| ==> GoodWellFormed(goods[i]) && GoodNormal(goods[i]) == goods[i]
    ensures AllGoods(goods) && GoodNormals(goods) == goods
  {
    if goods != [] {
      AllGoodsOf(goods[1..]);
      assert goods == [goods[0]] + goods[1..];
    }
  }

  /** Saved in any order and loaded into an empty store, the store is as it was, but for the separators
      in its failure reasons. */
  lemma SaveAndLoad(s: Store, stats: seq<RouteStat>, goods: seq<LastGood>, profile: string)
    requires Inv(s) && Persistent(s) && ListsStats(stats, s.stats) && ListsGoods(goods, s.goods)
    ensures Loaded(Store(profile, map[], map[]), Encode(stats, goods)) == Store(profile, NormalMap(s.stats), s.goods)
  {
    AllStatsOf(stats);
    AllGoodsOf(goods);
    RoundTrip(stats, goods);
    StatsRestored(stats, s.stats);
    GoodsRestored(goods, s.goods);
  }

  // ---------------------------------------------------------------------------
  // The object
  // ---------------------------------------------------------------------------

  class AdaptiveStore {
    var profile: string
    var stats: map<string, RouteStat>
    var lastGoods: map<string, LastGood>

    function Value(): Store reads this {
      Store(profile, stats, lastGoods)
    }

    constructor ()
      ensures Value() == Store("unknown", map[], map[])
    {
      profile, stats, lastGoods := "unknown", map[], map[];
    }

    method FindStat(route: string, dc: int, media: bool) returns (sk: string)
      modifies `stats
      ensures Value() == Apply(old(Value()), Look(route, dc, media))
      ensures sk == KeyString(StatKey(profile, route, dc, media)) && sk in stats
      ensures stats[sk] == StatFor(old(Value()), StatKey(profile, route, dc, media))
    {
      var key := StatKey(profile, route, dc, media);
      sk := KeyString(key);
      if sk !in stats {
        stats := stats[sk := NewStat(key)];
      }
    }

    method RecordSuccess(now: int, route: string, dc: int, media: bool, latencyMs: int)
      modifies this
      ensures Value() == Apply(old(Value()), Succeed(now, route, dc, media, latencyMs))
    {
      var sk := FindStat(route, dc, media);
      var st := CountSuccess(stats[sk], now, latencyMs);
      stats := stats[sk := st];
      lastGoods := lastGoods[GoodKey(profile, dc, media) := LastGood(profile, dc, media, route, now)];
    }

    static method CountSuccess(before: RouteStat, now: int, latencyMs: int) returns (st: RouteStat)
      ensures st == Succeeded(before, now, latencyMs)
    {
      st := before.(successCount := before.successCount + 1, consecutive := 0,
                    lastSuccessAt := now, lastUsedAt := now, cooldownUntil := 0);
      if latencyMs > 0 {
        st := st.(lastLatencyMs := latencyMs);
        if st.averageLatencyMs == 0 {
          st := st.(averageLatencyMs := latencyMs);
        } else {
          st := st.(averageLatencyMs := Quotient(st.averageLatencyMs * 3 + latencyMs, 4));
        }
      }
    }

    method RecordFailure(now: int, route: string, dc: int, media: bool, failure: Failure, latencyMs: int)
      modifies this
      ensures Value() == Apply(old(Value()), Fail(now, route, dc, media, failure, latencyMs))
    {
      if failure.neutral {
        return;
      }
      var sk := FindStat(route, dc, media);
      var st := CountFailure(stats[sk], now, failure, latencyMs);
      stats := stats[sk := st];
    }

    static method CountFailure(before: RouteStat, now: int, failure: Failure, latencyMs: int) returns (st: RouteStat)
      ensures st == Failed(before, now, failure, latencyMs)
    {
      st := before.(failureCount := before.failureCount + 1, consecutive := before.consecutive + 1 + failure.extra,
                    lastFailureAt := now, lastUsedAt := now, lastFailureReason := failure.tag);
      if latencyMs > 0 {
        st := st.(lastLatencyMs := latencyMs);
      }
      if st.consecutive >= failure.cooldownAfter {
        st := st.(cooldownUntil := now + failure.cooldownMs);
      }
    }

    method Clear()
      modifies this
      ensures Value() == Apply(old(Value()), ResetAll)
    {
      stats, lastGoods := map[], map[];
    }

    method ResetCurrentProfile()
      modifies this
      ensures Value() == Apply(old(Value()), ResetProfile)
    {
      stats := DropStats(stats, profile);
      lastGoods := DropGoods(lastGoods, profile);
    }

    static method DropStats(m: map<string, RouteStat>, profile: string) returns (r: map<string, RouteStat>)
      ensures r == map k | k in m && m[k].key.profile != profile :: m[k]
    {
      r := m;
      var keys := m.Keys;
      while keys != {}
        invariant keys <= m.Keys
        invariant r == map k | k in m && (k in keys || m[k].key.profile != profile) :: m[k]
        decreases |keys|
      {
        var k :| k in keys;
        keys := keys - {k};
        if m[k].key.profile == profile {
          r := r - {k};
        }
      }
    }

    static method DropGoods(m: map<string, LastGood>, profile: string) returns (r: map<string, LastGood>)
      ensures r == map k | k in m && m[k].profile != profile :: m[k]
    {
      r := m;
      var keys := m.Keys;
      while keys != {}
        invariant keys <= m.Keys
        invariant r == map k | k in m && (k in keys || m[k].profile != profile) :: m[k]
        decreases |keys|
      {
        var k :| k in keys;
        keys := keys - {k};
        if m[k].profile == profile {
          r := r - {k};
        }
      }
    }

    /** The entries, in whatever order the maps yield them. */
    method Snapshot() returns (allStats: seq<RouteStat>, allGoods: seq<LastGood>)
      requires Inv(Value())
      ensures ListsStats(allStats, stats) && ListsGoods(allGoods, lastGoods)
      ensures |allStats| == |stats| && |allGoods| == |lastGoods|
    {
      allStats := SnapshotStats(stats);
      allGoods := SnapshotGoods(lastGoods);
    }

    static method SnapshotStats(m: map<string, RouteStat>) returns (all: seq<RouteStat>)
      requires OwnStats(m)
      ensures ListsStats(all, m) && |all| == |m|
    {
      all := [];
      var keys := m.Keys;
      while keys != {}
        invariant keys <= m.Keys && |all| + |keys| == |m|
        invariant SomeStats(all, m, keys)
        decreases |keys|
      {
        var k :| k in keys;
        OneMoreStat(all, m, keys, k);
        keys := keys - {k};
        all := all + [m[k]];
      }
    }

    static method SnapshotGoods(m: map<string, LastGood>) returns (all: seq<LastGood>)
      requires OwnGoods(m)
      ensures ListsGoods(all, m) && |all| == |m|
    {
      all := [];
      var keys := m.Keys;
      while keys != {}
        invariant keys <= m.Keys && |all| + |keys| == |m|
        invariant SomeGoods(all, m, keys)
        decreases |keys|
      {
        var k :| k in keys;
        OneMoreGood(all, m, keys, k);
        keys := keys - {k};
        all := all + [m[k]];
      }
    }

    method LoadEncodedStats(text: string)
      modifies this
      ensures Value() == Apply(old(Value()), Load(text))
    {
      var decodedStats, decodedGoods := DecodeRouteStats(text);
      stats := LoadStats(stats, decodedStats);
      lastGoods := LoadGoods(lastGoods, decodedGoods);
    }

    static method LoadStats(before: map<string, RouteStat>, decoded: seq<RouteStat>) returns (m: map<string, RouteStat>)
      ensures m == PutStats(before, decoded)
    {
      m := before;
      for i := 0 to |decoded|
        invariant PutStats(m, decoded[i..]) == PutStats(before, decoded)
      {
        assert decoded[i..][1..] == decoded[i + 1..];
        m := m[KeyString(decoded[i].key) := decoded[i]];
      }
    }

    static method LoadGoods(before: map<string, LastGood>, decoded: seq<LastGood>) returns (m: map<string, LastGood>)
      ensures m == PutGoods(before, decoded)
    {
      m := before;
      for i := 0 to |decoded|
        invariant PutGoods(m, decoded[i..]) == PutGoods(before, decoded)
      {
        assert decoded[i..][1..] == decoded[i + 1..];
        var lg := decoded[i];
        m := m[GoodKey(lg.profile, lg.dc, lg.media) := lg];
      }
    }
  }
}
