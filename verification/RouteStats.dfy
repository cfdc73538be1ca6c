/**
 The text form of route statistics (`EncodeRouteStats`, `DecodeRouteStats`,
 native/tgwsproxy/tgwsroute/adaptive_codec.go).
 */
module RouteStats {
  import opened ByteStreams
  import opened Text

  datatype StatKey = StatKey(profile: string, route: string, dc: int, media: bool)

  datatype RouteStat = RouteStat(
    key: StatKey,
    successCount: int,
    failureCount: int,
    lastSuccessAt: int,
    lastFailureAt: int,
    lastFailureReason: string,
    lastLatencyMs: int,
    averageLatencyMs: int,
    cooldownUntil: int,
    consecutive: int,
    lastUsedAt: int)

  datatype LastGood = LastGood(profile: string, dc: int, media: bool, route: string, lastGoodAt: int)

  // ---------------------------------------------------------------------------
  // Encoding
  // ---------------------------------------------------------------------------

  function Escape(s: string): string {
    Replace(Replace(s, ':', '_'), ';', '_')
  }

  function MediaField(media: bool): string {
    if media then "1" else "0"
  }

  function NameFields(st: RouteStat): seq<string> {
    [st.key.route, Decimal(st.key.dc), MediaField(st.key.media)]
  }

  function CountFields(st: RouteStat): seq<string> {
    [Decimal(st.successCount), Decimal(st.failureCount), Decimal(st.lastSuccessAt), Decimal(st.lastFailureAt),
     Escape(st.lastFailureReason)]
  }

  function TimeFields(st: RouteStat): seq<string> {
    [Decimal(st.lastLatencyMs), Decimal(st.averageLatencyMs), Decimal(st.cooldownUntil), Decimal(st.consecutive),
     Decimal(st.lastUsedAt)]
  }

  /** The fields of a statistic before the last one. */
  function HeadFields(st: RouteStat): (f: seq<string>)
    ensures |f| == 13
  {
    NameFields(st) + CountFields(st) + TimeFields(st)
  }

  function EncodeStat(st: RouteStat): string {
    Join(HeadFields(st) + [Escape(st.key.profile)], ':')
  }

  function GoodFields(lg: LastGood): seq<string> {
    [Escape(lg.profile), Decimal(lg.dc), MediaField(lg.media), lg.route, Decimal(lg.lastGoodAt)]
  }

  function EncodeGood(lg: LastGood): string {
    "lg:" + Join(GoodFields(lg), ':')
  }

  function EncodeStats(stats: seq<RouteStat>): seq<string> {
    if stats == [] then [] else [EncodeStat(stats[0])] + EncodeStats(stats[1..])
  }

  function EncodeGoods(goods: seq<LastGood>): seq<string> {
    if goods == [] then [] else [EncodeGood(goods[0])] + EncodeGoods(goods[1..])
  }

  function Encode(stats: seq<RouteStat>, goods: seq<LastGood>): string {
    Join(EncodeStats(stats) + EncodeGoods(goods), ';')
  }

  // ---------------------------------------------------------------------------
  // Decoding
  // ---------------------------------------------------------------------------

  function StatOf(f: seq<string>): RouteStat
    requires |f| >= 14
  {
    RouteStat(StatKey(f[13], f[0], ParseInt(f[1]), f[2] == "1"), ParseInt(f[3]), ParseInt(f[4]), ParseInt(f[5]),
              ParseInt(f[6]), f[7], ParseInt(f[8]), ParseInt(f[9]), ParseInt(f[10]), ParseInt(f[11]), ParseInt(f[12]))
  }

  function DecodeStat(entry: string): Option<RouteStat> {
    var fields := Split(entry, ':');
    if |fields| < 14 then None else Some(StatOf(fields))
  }

  function GoodOf(f: seq<string>): LastGood
    requires |f| >= 5
  {
    LastGood(f[0], ParseInt(f[1]), f[2] == "1", f[3], ParseInt(f[4]))
  }

  function DecodeGood(entry: string): Option<LastGood> {
    var fields := Split(entry, ':');
    if |fields| < 5 then None else Some(GoodOf(fields))
  }

  datatype Decoded = Decoded(stats: seq<RouteStat>, goods: seq<LastGood>)

  /** What one entry adds to the result; entries that do not decode add nothing. */
  function AddEntry(d: Decoded, raw: string): Decoded {
    var entry := Trim(raw);
    if entry == "" then d
    else if "lg:" <= entry then
      match DecodeGood(entry[3..]) case None => d case Some(lg) => d.(goods := d.goods + [lg])
    else
      match DecodeStat(entry) case None => d case Some(st) => d.(stats := d.stats + [st])
  }

  function AddEntries(d: Decoded, entries: seq<string>): Decoded
    decreases |entries|
  {
    if entries == [] then d else AddEntries(AddEntry(d, entries[0]), entries[1..])
  }

  function Decode(raw: string): Decoded {
    var trimmed := Trim(raw);
    if trimmed == "" then Decoded([], []) else AddEntries(Decoded([], []), Split(trimmed, ';'))
  }

  // ---------------------------------------------------------------------------
  // One entry
  // ---------------------------------------------------------------------------

  /** A route name as the code's constants are: no separator, no space at its ends, and not the tag of
      the other kind of entry. */
  predicate PlainRoute(route: string) {
    route != "" && route != "lg" && Free(route, ':') && Free(route, ';') && !IsSpace(route[0])
  }

  lemma DirectPlain()
    ensures PlainRoute("direct_ws") && Free("direct_ws", '|')
  {
    PlainChars("direct_ws");
  }

  lemma WorkerPlain()
    ensures PlainRoute("cf_worker_ws") && Free("cf_worker_ws", '|')
  {
    PlainChars("cf_worker_ws");
  }

  lemma ProxyPlain()
    ensures PlainRoute("cf_proxy_ws") && Free("cf_proxy_ws", '|')
  {
    PlainChars("cf_proxy_ws");
  }

  lemma FallbackPlain()
    ensures PlainRoute("tcp_fallback") && Free("tcp_fallback", '|')
  {
    PlainChars("tcp_fallback");
  }

  lemma PlainChars(s: string)
    requires s != "" && s != "lg" && (forall i :: 0 <= i < |s| ==> s[i] == '_' || 'a' <= s[i] <= 'z')
    ensures PlainRoute(s) && Free(s, '|')
  {
    FreeOfAll(s, ':');
    FreeOfAll(s, ';');
    FreeOfAll(s, '|');
  }

  lemma {:induction false} FreeOfAll(s: string, sep: char)
    requires forall i :: 0 <= i < |s| ==> s[i] != sep
    ensures Free(s, sep)
  {
    if s != "" {
      FreeOfAll(s[1..], sep);
    }
  }

  ghost predicate WellFormed(st: RouteStat) {
    && PlainRoute(st.key.route) && IsInt64(st.key.dc)
    && IsInt64(st.successCount) && IsInt64(st.failureCount) && IsInt64(st.lastSuccessAt) && IsInt64(st.lastFailureAt)
    && IsInt64(st.lastLatencyMs) && IsInt64(st.averageLatencyMs) && IsInt64(st.cooldownUntil)
    && IsInt64(st.consecutive) && IsInt64(st.lastUsedAt)
  }

  ghost predicate GoodWellFormed(lg: LastGood) {
    PlainRoute(lg.route) && IsInt64(lg.dc) && IsInt64(lg.lastGoodAt)
  }

  /** What is left of a statistic after a round trip: separators in its reason and its profile become
      underscores, and a profile loses white space at its end. */
  function Normal(st: RouteStat): RouteStat {
    st.(key := st.key.(profile := TrimRight(Escape(st.key.profile))), lastFailureReason := Escape(st.lastFailureReason))
  }

  function GoodNormal(lg: LastGood): LastGood {
    lg.(profile := Escape(lg.profile))
  }

  lemma EscapeFree(s: string)
    ensures Free(Escape(s), ':') && Free(Escape(s), ';')
    ensures Free(s, ':') && Free(s, ';') ==> Escape(s) == s
  {
    ReplaceFrees(s, ':', '_');
    ReplaceFrees(Replace(s, ':', '_'), ';', '_');
    ReplaceKeepsFree(Replace(s, ':', '_'), ';', '_', ':');
  }

  lemma MediaFree(media: bool, sep: char)
    requires sep == ':' || sep == ';' || sep == '|'
    ensures Free(MediaField(media), sep)
  {
    assert MediaField(media)[1..] == "";
  }

  lemma NamesFree(st: RouteStat, sep: char)
    requires PlainRoute(st.key.route) && (sep == ':' || sep == ';')
    ensures AllFree(NameFields(st), sep)
  {
    DecimalFree(st.key.dc, sep);
    MediaFree(st.key.media, sep);
    AllFreeOf(NameFields(st), sep);
  }

  lemma CountsFree(st: RouteStat, sep: char)
    requires sep == ':' || sep == ';'
    ensures AllFree(CountFields(st), sep)
  {
    DecimalFree(st.successCount, sep);
    DecimalFree(st.failureCount, sep);
    DecimalFree(st.lastSuccessAt, sep);
    DecimalFree(st.lastFailureAt, sep);
    EscapeFree(st.lastFailureReason);
    AllFreeOf(CountFields(st), sep);
  }

  lemma TimesFree(st: RouteStat, sep: char)
    requires sep == ':' || sep == ';'
    ensures AllFree(TimeFields(st), sep)
  {
    DecimalFree(st.lastLatencyMs, sep);
    DecimalFree(st.averageLatencyMs, sep);
    DecimalFree(st.cooldownUntil, sep);
    DecimalFree(st.consecutive, sep);
    DecimalFree(st.lastUsedAt, sep);
    AllFreeOf(TimeFields(st), sep);
  }

  lemma HeadFree(st: RouteStat, sep: char)
    requires PlainRoute(st.key.route) && (sep == ':' || sep == ';')
    ensures AllFree(HeadFields(st), sep)
  {
    NamesFree(st, sep);
    CountsFree(st, sep);
    TimesFree(st, sep);
    AllFreeAppend(NameFields(st), CountFields(st), sep);
    AllFreeAppend(NameFields(st) + CountFields(st), TimeFields(st), sep);
  }

  lemma {:induction false} AllFreeOf(parts: seq<string>, sep: char)
    requires forall i :: 0 <= i < |parts| ==> Free(parts[i], sep)
    ensures AllFree(parts, sep)
  {
    if parts != [] {
      AllFreeOf(parts[1..], sep);
    }
  }

  lemma {:induction false} AllFreeAppend(a: seq<string>, b: seq<string>, sep: char)
    requires AllFree(a, sep) && AllFree(b, sep)
    ensures AllFree(a + b, sep)
  {
    if a == [] {
      assert a + b == b;
    } else {
      AllFreeAppend(a[1..], b, sep);
      assert (a + b)[1..] == a[1..] + b;
    }
  }

  lemma AllFreeOne(s: string, sep: char)
    requires Free(s, sep)
    ensures AllFree([s], sep)
  {
    assert [s][1..] == [];
  }

  /** The fields decode to the statistic, with the last field as its profile. */
  lemma FieldsDecode(st: RouteStat, profile: string)
    requires WellFormed(st)
    ensures StatOf(HeadFields(st) + [profile])
         == st.(key := st.key.(profile := profile), lastFailureReason := Escape(st.lastFailureReason))
  {
    DecimalRoundTrip(st.key.dc);
    DecimalRoundTrip(st.successCount);
    DecimalRoundTrip(st.failureCount);
    DecimalRoundTrip(st.lastSuccessAt);
    DecimalRoundTrip(st.lastFailureAt);
    DecimalRoundTrip(st.lastLatencyMs);
    DecimalRoundTrip(st.averageLatencyMs);
    DecimalRoundTrip(st.cooldownUntil);
    DecimalRoundTrip(st.consecutive);
    DecimalRoundTrip(st.lastUsedAt);
  }

  function StatLine(st: RouteStat, profile: string): string {
    Join(HeadFields(st) + [profile], ':')
  }

  lemma LineDecodes(st: RouteStat, profile: string)
    requires WellFormed(st) && Free(profile, ':')
    ensures DecodeStat(StatLine(st, profile))
         == Some(st.(key := st.key.(profile := profile), lastFailureReason := Escape(st.lastFailureReason)))
  {
    HeadFree(st, ':');
    AllFreeOne(profile, ':');
    AllFreeAppend(HeadFields(st), [profile], ':');
    SplitJoin(HeadFields(st) + [profile], ':');
    FieldsDecode(st, profile);
  }

  lemma LineStart(st: RouteStat, profile: string)
    requires PlainRoute(st.key.route)
    ensures StatLine(st, profile) != "" && !IsSpace(StatLine(st, profile)[0])
    ensures !("lg:" <= StatLine(st, profile))
  {
    var parts := HeadFields(st) + [profile];
    StartsWithRoute(st.key.route, Join(parts[1..], ':'));
    assert StatLine(st, profile) == st.key.route + [':'] + Join(parts[1..], ':');
  }

  lemma StartsWithRoute(route: string, after: string)
    requires PlainRoute(route)
    ensures !("lg:" <= route + [':'] + after) && (route + [':'] + after)[0] == route[0]
  {
    var line := route + [':'] + after;
    assert line[|route|] == ':';
    if |route| >= 3 {
      FreeAt(route, ':', 2);
      assert line[2] == route[2];
    } else if |route| == 2 {
      assert route == [route[0], route[1]];
      assert line[0] == route[0] && line[1] == route[1];
    }
  }

  /** White space at the end of a line can only be that of its profile. */
  lemma LineTrimmed(st: RouteStat, profile: string)
    requires PlainRoute(st.key.route)
    ensures Trim(StatLine(st, profile)) == TrimRight(StatLine(st, profile)) == StatLine(st, TrimRight(profile))
  {
    LineStart(st, profile);
    TrimStarting(StatLine(st, profile));
    JoinSnoc(HeadFields(st), profile, ':');
    JoinSnoc(HeadFields(st), TrimRight(profile), ':');
    var head := Join(HeadFields(st), ':') + [':'];
    TrimRightAppend(head, profile);
    assert TrimRight(head) == head;
    assert head + "" == head;
  }

  lemma LineFree(st: RouteStat, profile: string)
    requires PlainRoute(st.key.route) && Free(profile, ';')
    ensures Free(StatLine(st, profile), ';')
  {
    HeadFree(st, ';');
    AllFreeOne(profile, ';');
    AllFreeAppend(HeadFields(st), [profile], ';');
    FreeJoin(HeadFields(st) + [profile], ':', ';');
  }

  lemma {:induction false} TrimRightTwice(s: string)
    ensures TrimRight(TrimRight(s)) == TrimRight(s)
  {
    if s != "" && IsSpace(s[|s| - 1]) {
      TrimRightTwice(s[..|s| - 1]);
    }
  }

  /** An entry that survives joining, trimming the text, and splitting. */
  predicate SoundEntry(e: string) {
    e != "" && !IsSpace(e[0]) && TrimRight(e) != "" && Free(e, ';')
    && Free(TrimRight(e), ';') && Trim(TrimRight(e)) == Trim(e)
  }

  lemma StatEntry(d: Decoded, st: RouteStat)
    requires WellFormed(st)
    ensures SoundEntry(EncodeStat(st))
    ensures AddEntry(d, EncodeStat(st)) == d.(stats := d.stats + [Normal(st)])
  {
    var profile := Escape(st.key.profile);
    EscapeFree(st.key.profile);
    FreePrefix(profile, TrimRight(profile), ':');
    FreePrefix(profile, TrimRight(profile), ';');
    LineStart(st, profile);
    LineTrimmed(st, profile);
    TrimRightTwice(profile);
    LineTrimmed(st, TrimRight(profile));
    LineStart(st, TrimRight(profile));
    LineFree(st, profile);
    LineFree(st, TrimRight(profile));
    LineDecodes(st, TrimRight(profile));
  }

  lemma GoodFree(lg: LastGood, sep: char)
    requires PlainRoute(lg.route) && (sep == ':' || sep == ';')
    ensures AllFree(GoodFields(lg), sep)
  {
    EscapeFree(lg.profile);
    MediaFree(lg.media, sep);
    DecimalFree(lg.dc, sep);
    DecimalFree(lg.lastGoodAt, sep);
    AllFreeOf(GoodFields(lg), sep);
  }

  lemma {:induction false} DigitsEnd(n: nat)
    ensures !IsSpace(Digits(n)[|Digits(n)| - 1])
  {
  }

  lemma GoodTrimmed(lg: LastGood)
    ensures Trim(EncodeGood(lg)) == TrimRight(EncodeGood(lg)) == EncodeGood(lg)
  {
    var before, last := GoodFields(lg)[..4], Decimal(lg.lastGoodAt);
    assert GoodFields(lg) == before + [last];
    JoinSnoc(before, last, ':');
    DigitsEnd(if lg.lastGoodAt < 0 then -lg.lastGoodAt else lg.lastGoodAt);
    assert !IsSpace(last[|last| - 1]);
    var entry := EncodeGood(lg);
    assert entry[|entry| - 1] == last[|last| - 1];
    TrimStarting(entry);
  }

  lemma GoodEntry(d: Decoded, lg: LastGood)
    requires GoodWellFormed(lg)
    ensures SoundEntry(EncodeGood(lg))
    ensures AddEntry(d, EncodeGood(lg)) == d.(goods := d.goods + [GoodNormal(lg)])
  {
    GoodTrimmed(lg);
    GoodFree(lg, ':');
    GoodFree(lg, ';');
    FreeJoin(GoodFields(lg), ':', ';');
    FreeOfAll("lg:", ';');
    FreeAppend("lg:", Join(GoodFields(lg), ':'), ';');
    assert EncodeGood(lg)[3..] == Join(GoodFields(lg), ':');
    SplitJoin(GoodFields(lg), ':');
    DecimalRoundTrip(lg.dc);
    DecimalRoundTrip(lg.lastGoodAt);
  }

  // ---------------------------------------------------------------------------
  // The whole text
  // ---------------------------------------------------------------------------

  function Normals(stats: seq<RouteStat>): seq<RouteStat> {
    if stats == [] then [] else [Normal(stats[0])] + Normals(stats[1..])
  }

  function GoodNormals(goods: seq<LastGood>): seq<LastGood> {
    if goods == [] then [] else [GoodNormal(goods[0])] + GoodNormals(goods[1..])
  }

  ghost predicate AllStats(stats: seq<RouteStat>) {
    stats == [] || (WellFormed(stats[0]) && AllStats(stats[1..]))
  }

  ghost predicate AllGoods(goods: seq<LastGood>) {
    goods == [] || (GoodWellFormed(goods[0]) && AllGoods(goods[1..]))
  }

  predicate AllSound(entries: seq<string>) {
    entries == [] || (SoundEntry(entries[0]) && AllSound(entries[1..]))
  }

  lemma {:induction false} GoodsDecode(d: Decoded, goods: seq<LastGood>)
    requires AllGoods(goods)
    ensures AllSound(EncodeGoods(goods))
    ensures AddEntries(d, EncodeGoods(goods)) == d.(goods := d.goods + GoodNormals(goods))
    decreases |goods|
  {
    if goods == [] {
      assert d.goods + [] == d.goods;
    } else {
      GoodEntry(d, goods[0]);
      GoodsDecode(d.(goods := d.goods + [GoodNormal(goods[0])]), goods[1..]);
      assert EncodeGoods(goods)[1..] == EncodeGoods(goods[1..]);
      ConcatAssoc(d.goods, [GoodNormal(goods[0])], GoodNormals(goods[1..]));
    }
  }

  lemma {:induction false} StatsDecode(d: Decoded, stats: seq<RouteStat>)
    requires AllStats(stats)
    ensures AllSound(EncodeStats(stats))
    ensures AddEntries(d, EncodeStats(stats)) == d.(stats := d.stats + Normals(stats))
    decreases |stats|
  {
    if stats == [] {
      assert d.stats + [] == d.stats;
    } else {
      StatEntry(d, stats[0]);
      StatsDecode(d.(stats := d.stats + [Normal(stats[0])]), stats[1..]);
      assert EncodeStats(stats)[1..] == EncodeStats(stats[1..]);
      ConcatAssoc(d.stats, [Normal(stats[0])], Normals(stats[1..]));
    }
  }

  lemma {:induction false} AddEntriesAppend(d: Decoded, a: seq<string>, b: seq<string>)
    ensures AddEntries(d, a + b) == AddEntries(AddEntries(d, a), b)
    decreases |a|
  {
    if a == [] {
      assert a + b == b;
    } else {
      var d1 := FirstEntry(d, a, b);
      AddEntriesAppend(d1, a[1..], b);
    }
  }

  lemma FirstEntry(d: Decoded, a: seq<string>, b: seq<string>) returns (d1: Decoded)
    requires a != []
    ensures AddEntries(d, a) == AddEntries(d1, a[1..]) && AddEntries(d, a + b) == AddEntries(d1, a[1..] + b)
  {
    d1 := AddEntry(d, a[0]);
    assert (a + b)[1..] == a[1..] + b;
  }

  lemma AddEntriesOne(d: Decoded, e: string)
    ensures AddEntries(d, [e]) == AddEntry(d, e)
  {
    assert [e][1..] == [];
  }

  lemma {:induction false} AllSoundAppend(a: seq<string>, b: seq<string>)
    requires AllSound(a) && AllSound(b)
    ensures AllSound(a + b)
  {
    if a == [] {
      assert a + b == b;
    } else {
      AllSoundAppend(a[1..], b);
      assert (a + b)[1..] == a[1..] + b;
    }
  }

  lemma {:induction false} AllSoundFree(entries: seq<string>)
    requires AllSound(entries)
    ensures AllFree(entries, ';')
  {
    if entries != [] {
      AllSoundFree(entries[1..]);
    }
  }

  lemma {:induction false} AllSoundTake(entries: seq<string>)
    requires AllSound(entries) && entries != []
    ensures AllSound(entries[..|entries| - 1]) && SoundEntry(entries[|entries| - 1])
  {
    if |entries| > 1 {
      AllSoundTake(entries[1..]);
      assert entries[..|entries| - 1][1..] == entries[1..][..|entries| - 2];
    }
  }

  /** Trimming a text of several entries trims the last of them. */
  lemma JoinTrimmed(before: seq<string>, last: string)
    requires TrimRight(last) != ""
    ensures TrimRight(Join(before + [last], ';')) == Join(before + [TrimRight(last)], ';')
  {
    if before == [] {
      assert before + [last] == [last] && before + [TrimRight(last)] == [TrimRight(last)];
    } else {
      JoinSnoc(before, last, ';');
      JoinSnoc(before, TrimRight(last), ';');
      TrimRightAppend(Join(before, ';') + [';'], last);
    }
  }

  lemma JoinStart(entries: seq<string>)
    requires entries != [] && entries[0] != ""
    ensures Join(entries, ';') != "" && Join(entries, ';')[0] == entries[0][0]
  {
  }

  lemma TextTrimmed(before: seq<string>, last: string)
    requires AllSound(before) && SoundEntry(last)
    ensures var text := Trim(Join(before + [last], ';'));
            text != "" && Split(text, ';') == before + [TrimRight(last)]
  {
    var entries := before + [last];
    JoinStart(entries);
    TrimStarting(Join(entries, ';'));
    JoinTrimmed(before, last);
    AllSoundFree(before);
    AllFreeOne(TrimRight(last), ';');
    AllFreeAppend(before, [TrimRight(last)], ';');
    SplitJoin(before + [TrimRight(last)], ';');
  }

  lemma SameLast(d: Decoded, before: seq<string>, last: string)
    requires SoundEntry(last)
    ensures AddEntries(d, before + [TrimRight(last)]) == AddEntries(d, before + [last])
  {
    AddEntriesAppend(d, before, [TrimRight(last)]);
    AddEntriesAppend(d, before, [last]);
    AddEntriesOne(AddEntries(d, before), TrimRight(last));
    AddEntriesOne(AddEntries(d, before), last);
  }

  lemma DecodeSplit(raw: string, parts: seq<string>)
    requires Trim(raw) != "" && Split(Trim(raw), ';') == parts
    ensures Decode(raw) == AddEntries(Decoded([], []), parts)
  {
  }

  lemma SoundDecodes(entries: seq<string>, before: seq<string>, last: string)
    requires AllSound(before) && SoundEntry(last) && entries == before + [last]
    ensures Decode(Join(entries, ';')) == AddEntries(Decoded([], []), entries)
  {
    TextTrimmed(before, last);
    DecodeSplit(Join(entries, ';'), before + [TrimRight(last)]);
    SameLast(Decoded([], []), before, last);
  }

  lemma SplitLast(entries: seq<string>) returns (before: seq<string>, last: string)
    requires AllSound(entries) && entries != []
    ensures entries == before + [last] && AllSound(before) && SoundEntry(last)
  {
    AllSoundTake(entries);
    before, last := entries[..|entries| - 1], entries[|entries| - 1];
  }

  lemma EntriesDecode(entries: seq<string>)
    requires AllSound(entries) && entries != []
    ensures Decode(Join(entries, ';')) == AddEntries(Decoded([], []), entries)
  {
    var before, last := SplitLast(entries);
    SoundDecodes(entries, before, last);
  }

  /** Decoding what was encoded gives every entry back, in order, in its normal form. */
  lemma RoundTrip(stats: seq<RouteStat>, goods: seq<LastGood>)
    requires AllStats(stats) && AllGoods(goods)
    ensures Decode(Encode(stats, goods)) == Decoded(Normals(stats), GoodNormals(goods))
  {
    var a, b, none := EncodeStats(stats), EncodeGoods(goods), Decoded([], []);
    StatsDecode(none, stats);
    GoodsDecode(none.(stats := [] + Normals(stats)), goods);
    AddEntriesAppend(none, a, b);
    AllSoundAppend(a, b);
    if a + b != [] {
      EntriesDecode(a + b);
    }
    assert [] + Normals(stats) == Normals(stats) && [] + GoodNormals(goods) == GoodNormals(goods);
  }

  /** A statistic comes back with its own profile exactly when that has no separator in it and no white
      space at its end; a last good route exactly when it has no separator. */
  lemma NormalIff(st: RouteStat)
    ensures Normal(st).key == st.key <==>
              Free(st.key.profile, ':') && Free(st.key.profile, ';') && TrimRight(st.key.profile) == st.key.profile
  {
    var p := st.key.profile;
    EscapeFree(p);
    if TrimRight(Escape(p)) == p {
      FreePrefix(Escape(p), p, ':');
      FreePrefix(Escape(p), p, ';');
    }
  }

  lemma GoodNormalIff(lg: LastGood)
    ensures GoodNormal(lg) == lg <==> Free(lg.profile, ':') && Free(lg.profile, ';')
  {
    EscapeFree(lg.profile);
  }

  // ---------------------------------------------------------------------------
  // The loops
  // ---------------------------------------------------------------------------

  method EncodeRouteStats(stats: seq<RouteStat>, goods: seq<LastGood>) returns (text: string)
    ensures text == Encode(stats, goods)
  {
    var parts := [];
    for i := 0 to |stats|
      invariant parts + EncodeStats(stats[i..]) == EncodeStats(stats)
    {
      NextStat(parts, stats, i);
      parts := parts + [EncodeStat(stats[i])];
    }
    assert parts == EncodeStats(stats);
    ghost var first := parts;
    for i := 0 to |goods|
      invariant parts + EncodeGoods(goods[i..]) == first + EncodeGoods(goods)
    {
      NextGood(parts, goods, i);
      parts := parts + [EncodeGood(goods[i])];
    }
    assert parts == first + EncodeGoods(goods);
    text := Join(parts, ';');
  }

  lemma NextStat(parts: seq<string>, stats: seq<RouteStat>, i: nat)
    requires i < |stats|
    ensures parts + EncodeStats(stats[i..]) == parts + [EncodeStat(stats[i])] + EncodeStats(stats[i + 1..])
  {
    assert stats[i..][1..] == stats[i + 1..];
  }

  lemma NextGood(parts: seq<string>, goods: seq<LastGood>, i: nat)
    requires i < |goods|
    ensures parts + EncodeGoods(goods[i..]) == parts + [EncodeGood(goods[i])] + EncodeGoods(goods[i + 1..])
  {
    assert goods[i..][1..] == goods[i + 1..];
  }

  method DecodeRouteStats(raw: string) returns (stats: seq<RouteStat>, goods: seq<LastGood>)
    ensures Decoded(stats, goods) == Decode(raw)
  {
    stats, goods := [], [];
    var trimmed := Trim(raw);
    if trimmed == "" {
      return;
    }
    var entries := Split(trimmed, ';');
    for i := 0 to |entries|
      invariant AddEntries(Decoded(stats, goods), entries[i..]) == Decode(raw)
    {
      assert entries[i..][1..] == entries[i + 1..];
      var entry := Trim(entries[i]);
      if entry == "" {
        continue;
      }
      if "lg:" <= entry {
        var lg := DecodeGood(entry[3..]);
        if lg.Some? {
          goods := goods + [lg.value];
        }
        continue;
      }
      var st := DecodeStat(entry);
      if st.Some? {
        stats := stats + [st.value];
      }
    }
  }
}
