/**
 Live snapshot ingestion: for each requested ticker, one day of one-minute
 bars is folded into a single `Stock` row stamped with the run's start time;
 a ticker that fails is skipped, and all rows are committed once at the end.

 The provider's `info` mapping and minute table are inputs (`Feed`), as is
 the wall-clock text each row's meta records.
 */
module LiveSnapshot {
  import opened Canonical
  import opened Store

  datatype MinuteBar = MinuteBar(open: real, high: real, low: real, close: real, volume: int)

  /**
   The entries of the provider's `info` mapping that the snapshot reads
   (`dayHigh`, `dayLow`, `previousClose`, `marketCap`, `trailingPE`); `None`
   where the mapping has no such key.
   */
  datatype Info = Info(
    dayHigh: Option<Json>,
    dayLow: Option<Json>,
    previousClose: Option<Json>,
    marketCap: Option<Json>,
    trailingPE: Option<Json>)

  /** What fetching one ticker produced: an exception, or the info mapping and minute table. */
  datatype Feed =
    | Unavailable
    | Fetched(info: Info, bars: seq<MinuteBar>, stamp: string)

  /** At most this many of the newest bars are searched for a volume. */
  const VolumeLookback: nat := 5

  /** Highest `High` over the whole series. */
  function MaxHigh(bars: seq<MinuteBar>): (h: real)
    requires |bars| > 0
    ensures forall i :: 0 <= i < |bars| ==> bars[i].high <= h
    ensures exists i :: 0 <= i < |bars| && bars[i].high == h
  {
    if |bars| == 1 then bars[0].high
    else
      var rest := MaxHigh(bars[1..]);
      assert forall i :: 1 <= i < |bars| ==> bars[i] == bars[1..][i - 1];
      if bars[0].high >= rest then bars[0].high else rest
  }

  /** Lowest `Low` over the whole series. */
  function MinLow(bars: seq<MinuteBar>): (l: real)
    requires |bars| > 0
    ensures forall i :: 0 <= i < |bars| ==> l <= bars[i].low
    ensures exists i :: 0 <= i < |bars| && bars[i].low == l
  {
    if |bars| == 1 then bars[0].low
    else
      var rest := MinLow(bars[1..]);
      assert forall i :: 1 <= i < |bars| ==> bars[i] == bars[1..][i - 1];
      if bars[0].low <= rest then bars[0].low else rest
  }

  /** One bar that is not inverted is enough for the day's high to be at least its low. */
  lemma HighNotBelowLow(bars: seq<MinuteBar>, k: nat)
    requires k < |bars| && bars[k].low <= bars[k].high
    ensures MinLow(bars) <= MaxHigh(bars)
  {
  }

  /** The chosen volume and how many minutes back it was found (0 when none). */
  datatype VolumePick = VolumePick(volume: int, age: nat)

  /**
   The reverse scan from `i` minutes ago (1 is the newest bar): the first
   positive volume among the newest `min(5, n)` bars, else 0.
   */
  function ScanFrom(bars: seq<MinuteBar>, i: nat): VolumePick
    requires i >= 1
    decreases VolumeLookback + 1 - i
  {
    if i > VolumeLookback || i > |bars| then VolumePick(0, 0)
    else if bars[|bars| - i].volume > 0 then VolumePick(bars[|bars| - i].volume, i)
    else ScanFrom(bars, i + 1)
  }

  function SelectVolume(bars: seq<MinuteBar>): VolumePick
  {
    ScanFrom(bars, 1)
  }

  /** How many of the newest bars the scan may look at. */
  function Window(bars: seq<MinuteBar>): nat
  {
    if |bars| < VolumeLookback then |bars| else VolumeLookback
  }

  /** The bar from `j` minutes ago; 1 is the newest (`iloc[-j]`). */
  function Ago(bars: seq<MinuteBar>, j: nat): MinuteBar
    requires 1 <= j <= |bars|
  {
    bars[|bars| - j]
  }

  /** No bar from `lo` to `hi` minutes ago has a positive volume. */
  predicate QuietBetween(bars: seq<MinuteBar>, lo: nat, hi: nat)
    requires hi <= |bars|
  {
    forall j :: 1 <= lo <= j <= hi ==> Ago(bars, j).volume <= 0
  }

  lemma {:induction false} ScanFromSpec(bars: seq<MinuteBar>, i: nat)
    requires 1 <= i
    ensures var p := ScanFrom(bars, i);
            && (p.age == 0 <==> (i > Window(bars) || QuietBetween(bars, i, Window(bars))))
            && (p.age == 0 ==> p.volume == 0)
            && (p.age != 0 ==>
                  && i <= p.age <= Window(bars)
                  && p.volume == Ago(bars, p.age).volume > 0
                  && QuietBetween(bars, i, p.age - 1))
    decreases VolumeLookback + 1 - i
  {
    if i > VolumeLookback || i > |bars| {
    } else if bars[|bars| - i].volume > 0 {
      assert Ago(bars, i).volume > 0;
    } else {
      assert Ago(bars, i).volume <= 0;
      ScanFromSpec(bars, i + 1);
    }
  }

  /**
   The selected volume is that of the newest bar with a positive volume among
   the last `min(5, n)` bars, scanned newest first; 0 if there is none.
   */
  lemma SelectVolumeSpec(bars: seq<MinuteBar>)
    ensures var p := SelectVolume(bars);
            && (p.age == 0 <==> QuietBetween(bars, 1, Window(bars)))
            && (p.age == 0 ==> p.volume == 0)
            && (p.age != 0 ==>
                  && 1 <= p.age <= Window(bars)
                  && p.volume == Ago(bars, p.age).volume > 0
                  && QuietBetween(bars, 1, p.age - 1))
  {
    ScanFromSpec(bars, 1);
  }

  lemma {:induction false} ScanFromSuffix(older: seq<MinuteBar>, recent: seq<MinuteBar>, i: nat)
    requires i >= 1 && |recent| >= VolumeLookback
    ensures ScanFrom(older + recent, i) == ScanFrom(recent, i)
    decreases VolumeLookback + 1 - i
  {
    var all := older + recent;
    if i > VolumeLookback || i > |all| {
    } else {
      assert all[|all| - i] == recent[|recent| - i];
      if all[|all| - i].volume <= 0 {
        ScanFromSuffix(older, recent, i + 1);
      }
    }
  }

  /** Bars older than the five most recent never influence the selected volume. */
  lemma OlderBarsIgnored(older: seq<MinuteBar>, recent: seq<MinuteBar>)
    requires |recent| >= VolumeLookback
    ensures SelectVolume(older + recent) == SelectVolume(recent)
  {
    ScanFromSuffix(older, recent, 1);
  }

  /** `float(x)` for a value read from `info`; `None` where Python would raise. */
  function ToFloat(v: Json): Option<real>
  {
    match v
    case JFloat(x) => Some(x)
    case JInt(i) => Some(i as real)
    case JBool(b) => Some(if b then 1.0 else 0.0)
    case JNull => None
    case JStr(_) => None
  }

  /** `float(info.get(key, default))`, given the entry for the key. */
  function InfoFloat(entry: Option<Json>, default: real): (r: Option<real>)
    ensures entry.None? ==> r == Some(default)
    ensures entry.Some? && entry.value.JFloat? ==> r == Some(entry.value.x)
    ensures entry.Some? && entry.value.JInt? ==> r == Some(entry.value.i as real)
    ensures entry.Some? && entry.value.JBool? ==> r == Some(if entry.value.b then 1.0 else 0.0)
    ensures r.None? <==> entry.Some? && (entry.value.JNull? || entry.value.JStr?)
  {
    if entry.Some? then ToFloat(entry.value) else Some(default)
  }

  /** `info.get(key)`: the stored value, or null. */
  function InfoGet(entry: Option<Json>): Json
  {
    if entry.Some? then entry.value else JNull
  }

  /** The fold of a non-empty minute series into the day's prices and volume. */
  datatype Summary = Summary(high: real, low: real, avg: real, last: MinuteBar, volume: int)

  function Summarize(bars: seq<MinuteBar>): (r: Summary)
    requires |bars| > 0
    ensures forall i :: 0 <= i < |bars| ==> bars[i].high <= r.high
    ensures exists i :: 0 <= i < |bars| && bars[i].high == r.high
    ensures forall i :: 0 <= i < |bars| ==> r.low <= bars[i].low
    ensures exists i :: 0 <= i < |bars| && bars[i].low == r.low
    ensures r.avg == (r.high + r.low) / 2.0
    ensures r.last == bars[|bars| - 1]
    ensures r.volume == SelectVolume(bars).volume
  {
    var high := MaxHigh(bars);
    var low := MinLow(bars);
    Summary(high, low, (high + low) / 2.0, bars[|bars| - 1], SelectVolume(bars).volume)
  }

  datatype Skip = FetchFailed | NoMinuteData | BadInfoValue

  datatype Snap = Skipped(why: Skip) | Row(stock: Stock)

  /** The three `info` values that go through `float()` all convert. */
  predicate InfoConverts(info: Info)
  {
    && (info.dayHigh.Some? ==> ToFloat(info.dayHigh.value).Some?)
    && (info.dayLow.Some? ==> ToFloat(info.dayLow.value).Some?)
    && (info.previousClose.Some? ==> ToFloat(info.previousClose.value).Some?)
  }

  /** The body of the per-ticker `try` block: one row from one ticker's feed. */
  function Snapshot(ticker: string, feed: Feed, now: int): (r: Snap)
    ensures feed.Unavailable? ==> r == Skipped(FetchFailed)
    ensures feed.Fetched? && |feed.bars| == 0 ==> r == Skipped(NoMinuteData)
    ensures feed.Fetched? && |feed.bars| > 0 ==> (r.Row? <==> InfoConverts(feed.info))
    ensures r.Row? ==>
              && feed.Fetched? && |feed.bars| > 0
              && r.stock.ticker == ticker && r.stock.time == now
              && r.stock.high == Summarize(feed.bars).high
              && r.stock.low == Summarize(feed.bars).low
              && r.stock.avg == Summarize(feed.bars).avg
              && r.stock.sale == Summarize(feed.bars).last.close
              && r.stock.meta.Some?
  {
    match feed
    case Unavailable => Skipped(FetchFailed)
    case Fetched(info, bars, stamp) =>
      if |bars| == 0 then Skipped(NoMinuteData)
      else
        var sum := Summarize(bars);
        var dayHigh := InfoFloat(info.dayHigh, sum.high);
        var dayLow := InfoFloat(info.dayLow, sum.low);
        var prevClose := InfoFloat(info.previousClose, 0.0);
        if dayHigh.None? || dayLow.None? || prevClose.None? then Skipped(BadInfoValue)
        else
          var meta := SnapshotMeta(sum.last, sum.volume, dayHigh.value, dayLow.value,
                                   prevClose.value, info, stamp);
          Row(Stock(ticker, now, sum.high, sum.low, sum.avg, sum.last.close, Some(meta)))
  }

  /** A snapshot row never has its high below its low, given one bar that is not inverted. */
  lemma SnapshotHighAtLeastLow(ticker: string, feed: Feed, now: int, k: nat)
    requires feed.Fetched? && k < |feed.bars| && feed.bars[k].low <= feed.bars[k].high
    requires Snapshot(ticker, feed, now).Row?
    ensures Snapshot(ticker, feed, now).stock.low <= Snapshot(ticker, feed, now).stock.high
  {
    HighNotBelowLow(feed.bars, k);
  }

  /** The meta object of a snapshot row: the fields taken from the bars, then those taken from `info`. */
  function SnapshotMeta(last: MinuteBar, volume: int, dayHigh: real, dayLow: real, prevClose: real,
                        info: Info, stamp: string): Meta
  {
    BarFields(last, volume) + InfoFields(dayHigh, dayLow, prevClose, info, stamp)
  }

  function BarFields(last: MinuteBar, volume: int): Meta
  {
    [Field(Source, JStr("yfinance")),
     Field(Volume, JInt(volume)),
     Field(Open, JFloat(last.open)),
     Field(Close, JFloat(last.close))]
  }

  function InfoFields(dayHigh: real, dayLow: real, prevClose: real, info: Info, stamp: string): Meta
  {
    [Field(DayHigh, JFloat(dayHigh)),
     Field(DayLow, JFloat(dayLow)),
     Field(PreviousClose, JFloat(prevClose)),
     Field(MarketCap, InfoGet(info.marketCap)),
     Field(PeRatio, InfoGet(info.trailingPE)),
     Field(Timestamp, JStr(stamp))]
  }

  /** The order in which a snapshot row lists its meta keys. */
  const SnapshotKeys: seq<Key> :=
    [Source, Volume, Open, Close, DayHigh, DayLow, PreviousClose, MarketCap, PeRatio, Timestamp]

  lemma SnapshotMetaKeys(last: MinuteBar, volume: int, dayHigh: real, dayLow: real,
                         prevClose: real, info: Info, stamp: string)
    ensures Keys(SnapshotMeta(last, volume, dayHigh, dayLow, prevClose, info, stamp)) == SnapshotKeys
  {
  }

  /** The values the snapshot computes from the minute bars, under their keys. */
  lemma SnapshotMetaBars(last: MinuteBar, volume: int, dayHigh: real, dayLow: real,
                         prevClose: real, info: Info, stamp: string)
    ensures var m := SnapshotMeta(last, volume, dayHigh, dayLow, prevClose, info, stamp);
            && Lookup(m, Source) == Some(JStr("yfinance"))
            && Lookup(m, Volume) == Some(JInt(volume))
            && Lookup(m, Open) == Some(JFloat(last.open))
            && Lookup(m, Close) == Some(JFloat(last.close))
  {
    var m := SnapshotMeta(last, volume, dayHigh, dayLow, prevClose, info, stamp);
    LookupFirst(m, 0, Source);
    LookupFirst(m, 1, Volume);
    LookupFirst(m, 2, Open);
    LookupFirst(m, 3, Close);
  }

  lemma InfoFieldsLookup(dayHigh: real, dayLow: real, prevClose: real, info: Info, stamp: string)
    ensures var m := InfoFields(dayHigh, dayLow, prevClose, info, stamp);
            && Lookup(m, DayHigh) == Some(JFloat(dayHigh))
            && Lookup(m, DayLow) == Some(JFloat(dayLow))
            && Lookup(m, PreviousClose) == Some(JFloat(prevClose))
            && Lookup(m, MarketCap) == Some(InfoGet(info.marketCap))
            && Lookup(m, PeRatio) == Some(InfoGet(info.trailingPE))
            && Lookup(m, Timestamp) == Some(JStr(stamp))
  {
    var m := InfoFields(dayHigh, dayLow, prevClose, info, stamp);
    LookupFirst(m, 0, DayHigh);
    LookupFirst(m, 1, DayLow);
    LookupFirst(m, 2, PreviousClose);
    LookupFirst(m, 3, MarketCap);
    LookupFirst(m, 4, PeRatio);
    LookupFirst(m, 5, Timestamp);
  }

  /** The values taken from `info` and the clock, under their keys. */
  lemma SnapshotMetaInfo(last: MinuteBar, volume: int, dayHigh: real, dayLow: real,
                         prevClose: real, info: Info, stamp: string)
    ensures var m := SnapshotMeta(last, volume, dayHigh, dayLow, prevClose, info, stamp);
            && Lookup(m, DayHigh) == Some(JFloat(dayHigh))
            && Lookup(m, DayLow) == Some(JFloat(dayLow))
            && Lookup(m, PreviousClose) == Some(JFloat(prevClose))
            && Lookup(m, MarketCap) == Some(InfoGet(info.marketCap))
            && Lookup(m, PeRatio) == Some(InfoGet(info.trailingPE))
            && Lookup(m, Timestamp) == Some(JStr(stamp))
  {
    var a, b := BarFields(last, volume), InfoFields(dayHigh, dayLow, prevClose, info, stamp);
    var bars := [Source, Volume, Open, Close];
    assert Keys(a) == bars;
    forall key | key !in bars
      ensures Lookup(a + b, key) == Lookup(b, key)
    {
      LookupAppend(a, b, key);
    }
    InfoFieldsLookup(dayHigh, dayLow, prevClose, info, stamp);
  }

  /**
   The meta object of a snapshot row: its keys in order, the last bar's open
   and close, the chosen volume, the `info` prices with their fallbacks, the
   two `info` values passed through, and the wall-clock stamp.
   */
  lemma SnapshotRowMeta(ticker: string, feed: Feed, now: int)
    requires Snapshot(ticker, feed, now).Row?
    ensures var m := Snapshot(ticker, feed, now).stock.meta.value;
            var sum := Summarize(feed.bars);
            && Keys(m) == SnapshotKeys
            && Lookup(m, Source) == Some(JStr("yfinance"))
            && Lookup(m, Volume) == Some(JInt(sum.volume))
            && Lookup(m, Open) == Some(JFloat(sum.last.open))
            && Lookup(m, Close) == Some(JFloat(sum.last.close))
            && Lookup(m, DayHigh) == Some(JFloat(InfoFloat(feed.info.dayHigh, sum.high).value))
            && Lookup(m, DayLow) == Some(JFloat(InfoFloat(feed.info.dayLow, sum.low).value))
            && Lookup(m, PreviousClose) == Some(JFloat(InfoFloat(feed.info.previousClose, 0.0).value))
            && Lookup(m, MarketCap) == Some(InfoGet(feed.info.marketCap))
            && Lookup(m, PeRatio) == Some(InfoGet(feed.info.trailingPE))
            && Lookup(m, Timestamp) == Some(JStr(feed.stamp))
  {
    var sum := Summarize(feed.bars);
    var dayHigh := InfoFloat(feed.info.dayHigh, sum.high).value;
    var dayLow := InfoFloat(feed.info.dayLow, sum.low).value;
    var prevClose := InfoFloat(feed.info.previousClose, 0.0).value;
    SnapshotMetaKeys(sum.last, sum.volume, dayHigh, dayLow, prevClose, feed.info, feed.stamp);
    SnapshotMetaBars(sum.last, sum.volume, dayHigh, dayLow, prevClose, feed.info, feed.stamp);
    SnapshotMetaInfo(sum.last, sum.volume, dayHigh, dayLow, prevClose, feed.info, feed.stamp);
  }

  /**
   Each missing `info` price falls back on its own: `dayHigh` to the computed
   high, `dayLow` to the computed low, `previousClose` to 0. Missing entries
   never stop a row from being built.
   */
  lemma InfoDefaults(ticker: string, info: Info, bars: seq<MinuteBar>, stamp: string, now: int)
    requires |bars| > 0
    ensures var r := Snapshot(ticker, Fetched(info, bars, stamp), now);
            && (info.dayHigh.None? && info.dayLow.None? && info.previousClose.None? ==> r.Row?)
            && (r.Row? && info.dayHigh.None? ==> Lookup(r.stock.meta.value, DayHigh) == Some(JFloat(r.stock.high)))
            && (r.Row? && info.dayLow.None? ==> Lookup(r.stock.meta.value, DayLow) == Some(JFloat(r.stock.low)))
            && (r.Row? && info.previousClose.None? ==> Lookup(r.stock.meta.value, PreviousClose) == Some(JFloat(0.0)))
  {
    if Snapshot(ticker, Fetched(info, bars, stamp), now).Row? {
      SnapshotRowMeta(ticker, Fetched(info, bars, stamp), now);
    }
  }

  /** What the loop stages for one ticker: its row, or nothing when the ticker is skipped. */
  function Staged(ticker: string, feed: Feed, now: int): (rows: seq<Stock>)
    ensures |rows| <= 1
    ensures |rows| == 1 <==> Snapshot(ticker, feed, now).Row?
    ensures |rows| == 1 ==> rows[0] == Snapshot(ticker, feed, now).stock
  {
    match Snapshot(ticker, feed, now)
    case Skipped(_) => []
    case Row(st) => [st]
  }

  /** Rows the per-ticker loop stages, in ticker order, skipping failed tickers. */
  function Collected(tickers: seq<string>, feeds: seq<Feed>, now: int): seq<Stock>
    requires |feeds| == |tickers|
  {
    if |tickers| == 0 then [] else Staged(tickers[0], feeds[0], now) + Collected(tickers[1..], feeds[1..], now)
  }

  /** Every row of one run carries the run's single timestamp and a requested ticker. */
  lemma {:induction false} CollectedShape(tickers: seq<string>, feeds: seq<Feed>, now: int)
    requires |feeds| == |tickers|
    ensures |Collected(tickers, feeds, now)| <= |tickers|
    ensures forall k :: 0 <= k < |Collected(tickers, feeds, now)| ==>
              Collected(tickers, feeds, now)[k].time == now
              && Collected(tickers, feeds, now)[k].ticker in tickers
  {
    if |tickers| > 0 {
      CollectedShape(tickers[1..], feeds[1..], now);
    }
  }

  /** A failure on one ticker affects only that ticker: collection splits over concatenation. */
  lemma {:induction false} CollectedSplits(t1: seq<string>, f1: seq<Feed>, t2: seq<string>, f2: seq<Feed>, now: int)
    requires |f1| == |t1| && |f2| == |t2|
    ensures Collected(t1 + t2, f1 + f2, now) == Collected(t1, f1, now) + Collected(t2, f2, now)
  {
    if |t1| == 0 {
      assert t1 + t2 == t2 && f1 + f2 == f2;
    } else {
      assert (t1 + t2)[1..] == t1[1..] + t2;
      assert (f1 + f2)[1..] == f1[1..] + f2;
      CollectedSplits(t1[1..], f1[1..], t2, f2, now);
    }
  }

  /** One more ticker tried: its staged rows follow those of the tickers before it. */
  lemma CollectedNext(tickers: seq<string>, feeds: seq<Feed>, i: nat, now: int)
    requires |feeds| == |tickers| && i < |tickers|
    ensures Collected(tickers[..i + 1], feeds[..i + 1], now)
            == Collected(tickers[..i], feeds[..i], now) + Staged(tickers[i], feeds[i], now)
  {
    assert tickers[..i + 1] == tickers[..i] + [tickers[i]];
    assert feeds[..i + 1] == feeds[..i] + [feeds[i]];
    CollectedSplits(tickers[..i], feeds[..i], [tickers[i]], [feeds[i]], now);
    assert [tickers[i]][1..] == [] && [feeds[i]][1..] == [];
  }

  datatype Outcome = Outcome(session: Session, raised: bool)

  /**
   `main`: one session, one timestamp, every ticker tried in order with its
   failure contained, then a single commit; a failing commit rolls back and
   raises. The session is closed on every path.
   */
  method Run(tickers: seq<string>, feeds: seq<Feed>, now: int, commitFails: bool) returns (out: Outcome)
    requires |feeds| == |tickers|
    ensures out.session.closed && out.session.pending == []
    ensures out.raised <==> commitFails
    ensures !commitFails ==> out.session.durable == Collected(tickers, feeds, now)
                             && out.session.commitSizes == [|Collected(tickers, feeds, now)|]
                             && out.session.rollbacks == 0
    ensures commitFails ==> out.session.durable == [] && out.session.commitSizes == []
                            && out.session.rollbacks == 1
  {
    var s := NewSession();
    var i := 0;
    while i < |tickers|
      invariant i <= |tickers|
      invariant s.durable == [] && s.commitSizes == [] && s.rollbacks == 0 && !s.closed
      invariant s.pending == Collected(tickers[..i], feeds[..i], now)
    {
      var rows := Staged(tickers[i], feeds[i], now);
      CollectedNext(tickers, feeds, i, now);
      if |rows| == 1 {
        s := Add(s, rows[0]);
      }
      i := i + 1;
    }
    assert tickers[..i] == tickers && feeds[..i] == feeds;
    var raised := false;
    if commitFails {
      s := Rollback(s);
      raised := true;
    } else {
      s := Commit(s);
    }
    s := CloseSession(s);
    out := Outcome(s, raised);
  }
}
