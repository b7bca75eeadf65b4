/**
 Historical backfill from the aggregates endpoint: each raw aggregate is
 normalised into a `Stock` row, and rows are committed every 1000 additions
 plus once at the end, with one rollback if anything raises.

 The provider's paginated iterator is given as the finite sequence of
 aggregates it would yield; where the run raises is given as a `Fault`.
 */
module Backfill {
  import opened Canonical
  import opened Store

  /** One aggregate bar as the provider returns it; `timestamp` is in milliseconds. */
  datatype Agg = Agg(
    timestamp: int,
    open: real,
    high: real,
    low: real,
    close: real,
    volume: real,
    vwap: Option<real>,
    transactions: Option<int>)

  /** Rows are committed whenever the running count reaches a multiple of this. */
  const CommitEvery: nat := 1000

  /** `int(ms / 1000)`: the quotient truncated toward zero, as `int()` truncates. */
  function MillisToSeconds(ms: int): (s: int)
    ensures ms >= 0 ==> 0 <= s && s * 1000 <= ms < s * 1000 + 1000
    ensures ms < 0 ==> s <= 0 && s * 1000 - 1000 < ms <= s * 1000
  {
    if ms >= 0 then ms / 1000 else -((-ms) / 1000)
  }

  /** `agg.vwap` as a truth value: present and non-zero. */
  predicate HasVwap(a: Agg) {
    a.vwap.Some? && a.vwap.value != 0.0
  }

  function OrNull(x: Option<real>): Json {
    match x
    case None => JNull
    case Some(v) => JFloat(v)
  }

  /** The row stored for one aggregate of `ticker`. */
  function ToStock(ticker: string, a: Agg): (r: Stock)
    ensures r.ticker == ticker
    ensures r.time == MillisToSeconds(a.timestamp)
    ensures r.high == a.high && r.low == a.low && r.sale == a.close
    ensures HasVwap(a) ==> r.avg == a.vwap.value
    ensures !HasVwap(a) ==> r.avg == (a.high + a.low) / 2.0
    ensures r.meta.Some?
    ensures Keys(r.meta.value) == [Open, Volume, Transactions, Vwap]
    ensures Lookup(r.meta.value, Open) == Some(JFloat(a.open))
    ensures Lookup(r.meta.value, Volume) == Some(JFloat(a.volume))
    ensures Lookup(r.meta.value, Transactions) ==
              Some(if a.transactions.Some? then JInt(a.transactions.value) else JNull)
    ensures Lookup(r.meta.value, Vwap) == Some(OrNull(a.vwap))
  {
    var avg := if HasVwap(a) then a.vwap.value else (a.high + a.low) / 2.0;
    var tx := match a.transactions
      case None => JNull
      case Some(n) => JInt(n);
    var meta := [Field(Open, JFloat(a.open)),
                 Field(Volume, JFloat(a.volume)),
                 Field(Transactions, tx),
                 Field(Vwap, OrNull(a.vwap))];
    assert Lookup(meta[3..], Vwap) == Some(OrNull(a.vwap));
    assert Lookup(meta[2..], Vwap) == Lookup(meta[3..], Vwap);
    assert Lookup(meta[2..], Transactions) == Some(tx);
    Stock(ticker, MillisToSeconds(a.timestamp), a.high, a.low, avg, a.close, Some(meta))
  }

  /** Without a usable vwap, avg lies between low and high. */
  lemma MidpointWithinRange(ticker: string, a: Agg)
    requires !HasVwap(a) && a.low <= a.high
    ensures ToStock(ticker, a).low <= ToStock(ticker, a).avg <= ToStock(ticker, a).high
  {
  }

  function Converted(ticker: string, aggs: seq<Agg>): (rows: seq<Stock>)
    ensures |rows| == |aggs|
    ensures forall i :: 0 <= i < |aggs| ==> rows[i] == ToStock(ticker, aggs[i])
  {
    seq(|aggs|, i requires 0 <= i < |aggs| => ToStock(ticker, aggs[i]))
  }

  /**
   Where the run raises. `FailsAfter(k)`: fetching or adding the (k+1)-th
   aggregate raises, after k rows were added (k equal to the number of
   aggregates is the iterator raising when asked for more). `CommitFails(j)`:
   the j-th call to commit raises.
   */
  datatype Fault = NoFault | FailsAfter(adds: nat) | CommitFails(call: nat)

  datatype Outcome =
    | MissingApiKey
    | Finished(session: Session, count: nat, raised: bool)

  /** The durable sizes after the first k batch commits: 1000, 2000, ..., 1000 k. */
  function BatchMarks(k: nat): (m: seq<nat>)
    ensures |m| == k
    ensures forall j :: 0 <= j < k ==> m[j] == CommitEvery * (j + 1)
  {
    seq(k, j requires 0 <= j < k => CommitEvery * (j + 1))
  }

  lemma PrefixGrows<T>(xs: seq<T>, n: nat)
    requires n < |xs|
    ensures xs[..n + 1] == xs[..n] + [xs[n]]
  {
  }

  /** Reaching a multiple of 1000 adds exactly one mark. */
  lemma MarksAtMultiple(c: nat)
    requires c > 0
    ensures c % CommitEvery == 0 ==> BatchMarks(c / CommitEvery) == BatchMarks((c - 1) / CommitEvery) + [c]
    ensures c % CommitEvery != 0 ==> c / CommitEvery == (c - 1) / CommitEvery
  {
    if c % CommitEvery == 0 {
      assert c / CommitEvery == (c - 1) / CommitEvery + 1;
      assert CommitEvery * (c / CommitEvery) == c;
    }
  }

  /** The fault strikes at some point of a run over n aggregates. */
  predicate Strikes(fault: Fault, n: nat) {
    match fault
    case NoFault => false
    case FailsAfter(k) => k <= n
    case CommitFails(j) => 1 <= j <= n / CommitEvery + 1
  }

  /**
   The loop of `main`: stage the rows one by one, committing whenever the
   running count is a multiple of 1000, until the rows run out or the fault
   strikes.
   */
  method StageAll(rows: seq<Stock>, fault: Fault) returns (s: Session, count: nat, raised: bool)
    ensures count <= |rows|
    ensures !s.closed && s.rollbacks == 0
    ensures s.durable + s.pending == rows[..count]
    ensures !raised ==> count == |rows| && s.commitSizes == BatchMarks(count / CommitEvery)
                        && |s.durable| == CommitEvery * (count / CommitEvery)
    ensures !raised && fault.FailsAfter? ==> fault.adds >= count
    ensures !raised && fault.CommitFails? && fault.call >= 1 ==> fault.call > count / CommitEvery
    ensures raised && fault.FailsAfter? ==>
              fault.adds == count && s.commitSizes == BatchMarks(count / CommitEvery)
              && |s.durable| == CommitEvery * (count / CommitEvery)
    ensures raised && fault.CommitFails? ==>
              count > 0 && count % CommitEvery == 0 && fault.call == count / CommitEvery
              && s.commitSizes == BatchMarks(fault.call - 1)
              && |s.durable| == CommitEvery * (fault.call - 1)
    ensures raised ==> !fault.NoFault?
  {
    s := NewSession();
    count := 0;
    raised := false;
    while count < |rows| && !raised
      invariant count <= |rows|
      invariant !s.closed && s.rollbacks == 0
      invariant s.durable + s.pending == rows[..count]
      invariant !raised ==> s.commitSizes == BatchMarks(count / CommitEvery)
      invariant !raised ==> |s.durable| == CommitEvery * (count / CommitEvery)
      invariant !raised && fault.FailsAfter? ==> fault.adds >= count
      invariant !raised && fault.CommitFails? && fault.call >= 1 ==> fault.call > count / CommitEvery
      invariant raised && fault.FailsAfter? ==>
                  fault.adds == count && s.commitSizes == BatchMarks(count / CommitEvery)
                  && |s.durable| == CommitEvery * (count / CommitEvery)
      invariant raised && fault.CommitFails? ==>
                  count > 0 && count % CommitEvery == 0 && fault.call == count / CommitEvery
                  && s.commitSizes == BatchMarks(fault.call - 1)
                  && |s.durable| == CommitEvery * (fault.call - 1)
      invariant raised ==> !fault.NoFault?
      decreases |rows| - count, !raised
    {
      if fault == FailsAfter(count) {
        raised := true;
      } else {
        PrefixGrows(rows, count);
        s := Add(s, rows[count]);
        count := count + 1;
        MarksAtMultiple(count);
        if count % CommitEvery == 0 {
          if fault == CommitFails(count / CommitEvery) {
            raised := true;
          } else {
            s := Commit(s);
          }
        }
      }
    }
  }

  /**
   `main` after argument parsing: convert and stage every aggregate, commit at
   every multiple of 1000 and once at the end, roll back once on error, close
   the session on every path.
   */
  method Run(apiKey: Option<string>, ticker: string, aggs: seq<Agg>, fault: Fault) returns (out: Outcome)
    ensures out.MissingApiKey? <==> apiKey.None? || apiKey.value == ""
    ensures out.Finished? ==>
              && out.session.closed && out.session.pending == []
              && out.raised == Strikes(fault, |aggs|)
              && out.session.rollbacks == (if out.raised then 1 else 0)
              && out.session.durable <= Converted(ticker, aggs)
              && (out.raised ==> |out.session.durable| % CommitEvery == 0)
    // a run nothing interrupts: every row durable, one commit per full batch plus one
    ensures out.Finished? && !out.raised ==>
              && out.count == |aggs|
              && out.session.durable == Converted(ticker, aggs)
              && out.session.commitSizes == BatchMarks(|aggs| / CommitEvery) + [|aggs|]
    // a fault before the (k+1)-th add: only whole batches survive
    ensures out.Finished? && fault.FailsAfter? && fault.adds <= |aggs| ==>
              && out.count == fault.adds
              && out.session.commitSizes == BatchMarks(fault.adds / CommitEvery)
              && out.session.durable == Converted(ticker, aggs)[..CommitEvery * (fault.adds / CommitEvery)]
    // the j-th commit fails: the j - 1 before it stand
    ensures out.Finished? && fault.CommitFails? && 1 <= fault.call <= |aggs| / CommitEvery ==>
              && out.count == CommitEvery * fault.call
              && out.session.commitSizes == BatchMarks(fault.call - 1)
              && out.session.durable == Converted(ticker, aggs)[..CommitEvery * (fault.call - 1)]
    ensures out.Finished? && fault.CommitFails? && fault.call == |aggs| / CommitEvery + 1 ==>
              && out.count == |aggs|
              && out.session.commitSizes == BatchMarks(|aggs| / CommitEvery)
              && out.session.durable == Converted(ticker, aggs)[..CommitEvery * (|aggs| / CommitEvery)]
  {
    if apiKey.None? || apiKey.value == "" {
      return MissingApiKey;
    }
    var rows := Converted(ticker, aggs);
    var s, count, raised := StageAll(rows, fault);
    if !raised {
      if fault == FailsAfter(count) {
        raised := true;
      } else if fault == CommitFails(count / CommitEvery + 1) {
        raised := true;
      } else {
        s := Commit(s);
      }
    }
    if raised {
      s := Rollback(s);
    }
    s := CloseSession(s);
    out := Finished(s, count, raised);
  }
}
