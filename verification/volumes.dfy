/** The per-second volume histogram (`VolumeStore`): a ring of 3600 slots,
    one per second, holding the quote volume `amount * price` of the trades
    seen in that second, plus the timestamp of the last processed trade. */
module Volumes {
  import opened Common
  import opened Market

  const HISTORY_SEC: nat := 3600

  datatype VolumeStore = VolumeStore(slots: seq<real>, lastTs: Option<int>)

  ghost predicate Valid(v: VolumeStore)
  {
    |v.slots| == HISTORY_SEC
  }

  /** A fresh store: every slot zero and no trade seen. */
  function Empty(): (v: VolumeStore)
    ensures Valid(v) && v.lastTs.None?
    ensures forall i :: 0 <= i < HISTORY_SEC ==> v.slots[i] == 0.0
  {
    VolumeStore(seq(HISTORY_SEC, _ => 0.0), None)
  }

  /** `Math.floor(ms / 1000)`; Dafny's division by a positive divisor floors. */
  function ToSec(ms: int): int
  {
    ms / 1000
  }

  /** The ring slot of a second. */
  function Slot(sec: int): (i: nat)
    ensures i < HISTORY_SEC
  {
    sec % HISTORY_SEC
  }

  function TradeVolume(t: ExchangeTrade): real
  {
    t.amount * t.price
  }

  /** `!this.lastTs` fails: a trade has been recorded (0 is never recorded). */
  predicate HasLast(v: VolumeStore)
  {
    v.lastTs.Some? && v.lastTs.value != 0
  }

  /** The trades `processTrades` passes over without touching the store:
      a missing or zero timestamp, or one older than the last processed. */
  predicate Skipped(v: VolumeStore, t: ExchangeTrade)
  {
    t.timestamp.None? || t.timestamp.value == 0
    || (v.lastTs.Some? && t.timestamp.value < v.lastTs.value)
  }

  /** The second after which slots are cleared for an accepted trade: the
      last trade's second, or the trade's own second for the first trade. */
  function PrevSec(v: VolumeStore, tSec: int): int
  {
    if HasLast(v) then ToSec(v.lastTs.value) else tSec
  }

  /** The slots after clearing every second in `(lo, hi]`, in that order. */
  function ZeroFilled(s: seq<real>, lo: int, hi: int): (r: seq<real>)
    requires |s| == HISTORY_SEC
    ensures |r| == HISTORY_SEC
    decreases hi - lo
  {
    if hi <= lo then s else ZeroFilled(s, lo, hi - 1)[Slot(hi) := 0.0]
  }

  /** Some second in `(lo, hi]` maps to slot `i`. */
  ghost predicate InGap(i: nat, lo: int, hi: int)
  {
    exists t :: lo < t <= hi && Slot(t) == i
  }

  /** A slot is zero after the fill exactly when a cleared second maps to it;
      every other slot keeps its value. */
  lemma {:induction false} ZeroFilledAt(s: seq<real>, lo: int, hi: int, i: nat)
    requires |s| == HISTORY_SEC && i < HISTORY_SEC
    ensures ZeroFilled(s, lo, hi)[i] == (if InGap(i, lo, hi) then 0.0 else s[i])
    decreases hi - lo
  {
    if hi > lo {
      ZeroFilledAt(s, lo, hi - 1, i);
      if Slot(hi) != i && InGap(i, lo, hi) {
        var t :| lo < t <= hi && Slot(t) == i;
        assert lo < t <= hi - 1;
      }
      if InGap(i, lo, hi - 1) {
        var t :| lo < t <= hi - 1 && Slot(t) == i;
        assert lo < t <= hi;
      }
    }
  }

  /** One iteration of the `processTrades` loop. */
  function ProcessTrade(v: VolumeStore, t: ExchangeTrade): (r: VolumeStore)
    requires Valid(v)
    ensures Valid(r)
    ensures Skipped(v, t) ==> r == v
    ensures !Skipped(v, t) ==> r.lastTs == t.timestamp
  {
    if Skipped(v, t) then v
    else
      var tSec := ToSec(t.timestamp.value);
      var cleared := ZeroFilled(v.slots, PrevSec(v, tSec), tSec);
      var k := Slot(tSec);
      VolumeStore(cleared[k := cleared[k] + TradeVolume(t)], t.timestamp)
  }

  /** `processTrades(trades)`: the trades in order. */
  function ProcessAll(v: VolumeStore, trades: seq<ExchangeTrade>): (r: VolumeStore)
    requires Valid(v)
    ensures Valid(r)
    decreases |trades|
  {
    if |trades| == 0 then v
    else ProcessTrade(ProcessAll(v, trades[..|trades| - 1]), trades[|trades| - 1])
  }

  /** An accepted trade clears every slot of the seconds after the previous
      second up to and including its own, then adds its volume to its own
      slot; no other slot changes. */
  lemma ProcessTradeSlots(v: VolumeStore, t: ExchangeTrade, i: nat)
    requires Valid(v) && !Skipped(v, t) && i < HISTORY_SEC
    ensures var tSec := ToSec(t.timestamp.value);
      var prev := PrevSec(v, tSec);
      var base := if InGap(i, prev, tSec) then 0.0 else v.slots[i];
      ProcessTrade(v, t).slots[i] == (if i == Slot(tSec) then base + TradeVolume(t) else base)
  {
    var tSec := ToSec(t.timestamp.value);
    ZeroFilledAt(v.slots, PrevSec(v, tSec), tSec, i);
  }

  /** The trade's own slot holds only its volume when it opens a new second,
      and accumulates when it falls in the same second as the previous trade. */
  lemma ProcessTradeOwnSlot(v: VolumeStore, t: ExchangeTrade)
    requires Valid(v) && !Skipped(v, t)
    ensures var tSec := ToSec(t.timestamp.value);
      var k := Slot(tSec);
      ProcessTrade(v, t).slots[k]
        == (if PrevSec(v, tSec) < tSec then 0.0 else v.slots[k]) + TradeVolume(t)
  {
    var tSec := ToSec(t.timestamp.value);
    var prev := PrevSec(v, tSec);
    ZeroFilledAt(v.slots, prev, tSec, Slot(tSec));
  }

  /** The first trade ever clears nothing: only its own slot changes. */
  lemma FirstTradeNoFill(v: VolumeStore, t: ExchangeTrade)
    requires Valid(v) && v.lastTs.None? && !Skipped(v, t)
    ensures var k := Slot(ToSec(t.timestamp.value));
      ProcessTrade(v, t).slots == v.slots[k := v.slots[k] + TradeVolume(t)]
  {
    var tSec := ToSec(t.timestamp.value);
    var k := Slot(tSec);
    var r := ProcessTrade(v, t);
    forall i | 0 <= i < HISTORY_SEC
      ensures r.slots[i] == v.slots[k := v.slots[k] + TradeVolume(t)][i]
    {
      ProcessTradeSlots(v, t, i);
    }
  }

  /** The last processed timestamp never decreases, and once set it stays set. */
  lemma {:induction false} LastTsMonotone(v: VolumeStore, trades: seq<ExchangeTrade>)
    requires Valid(v)
    ensures v.lastTs.Some? ==>
      ProcessAll(v, trades).lastTs.Some? && ProcessAll(v, trades).lastTs.value >= v.lastTs.value
    decreases |trades|
  {
    if |trades| > 0 {
      LastTsMonotone(v, trades[..|trades| - 1]);
    }
  }

  /** Every slot stays non-negative while trades have non-negative volume. */
  lemma {:induction false} SlotsNonNegative(v: VolumeStore, trades: seq<ExchangeTrade>)
    requires Valid(v)
    requires forall i :: 0 <= i < HISTORY_SEC ==> v.slots[i] >= 0.0
    requires forall j :: 0 <= j < |trades| ==> TradeVolume(trades[j]) >= 0.0
    ensures forall i :: 0 <= i < HISTORY_SEC ==> ProcessAll(v, trades).slots[i] >= 0.0
    decreases |trades|
  {
    if |trades| > 0 {
      var init := trades[..|trades| - 1];
      var last := trades[|trades| - 1];
      SlotsNonNegative(v, init);
      var u := ProcessAll(v, init);
      if !Skipped(u, last) {
        forall i | 0 <= i < HISTORY_SEC
          ensures ProcessTrade(u, last).slots[i] >= 0.0
        {
          ProcessTradeSlots(u, last, i);
        }
      }
    }
  }

  /** A single trade of 0.05 at 50000 leaves 2500 in its slot. */
  lemma SingleTradeVolume(ts: int)
    requires ts > 0
    ensures var t := ExchangeTrade("BTC/USDT", 50000.0, 0.05, Some(ts));
      ProcessAll(Empty(), [t]).slots[Slot(ToSec(ts))] == 2500.0
  {
    var t := ExchangeTrade("BTC/USDT", 50000.0, 0.05, Some(ts));
    assert [t][..0] == [];
    FirstTradeNoFill(Empty(), t);
  }

  /** `processTrades` as written, updating the slots in place second by second. */
  method ProcessTrades(v: VolumeStore, trades: seq<ExchangeTrade>) returns (r: VolumeStore)
    requires Valid(v)
    ensures r == ProcessAll(v, trades)
  {
    var slots := v.slots;
    var lastTs := v.lastTs;
    var n := 0;
    while n < |trades|
      invariant 0 <= n <= |trades|
      invariant VolumeStore(slots, lastTs) == ProcessAll(v, trades[..n])
    {
      var trade := trades[n];
      var before := VolumeStore(slots, lastTs);
      assert trades[..n + 1][..n] == trades[..n];
      assert ProcessAll(v, trades[..n + 1]) == ProcessTrade(before, trade);
      if !Skipped(before, trade) {
        var tSec := ToSec(trade.timestamp.value);
        var lastTSec := if lastTs.Some? && lastTs.value != 0 then ToSec(lastTs.value) else tSec;
        var t := lastTSec + 1;
        while t <= tSec
          invariant |slots| == HISTORY_SEC
          invariant t - 1 <= tSec || t == lastTSec + 1
          invariant slots == ZeroFilled(before.slots, lastTSec, t - 1)
          decreases tSec - t
        {
          slots := slots[Slot(t) := 0.0];
          t := t + 1;
        }
        assert slots == ZeroFilled(before.slots, lastTSec, tSec);
        var k := Slot(tSec);
        slots := slots[k := slots[k] + TradeVolume(trade)];
        lastTs := trade.timestamp;
      }
      n := n + 1;
    }
    assert trades[..n] == trades;
    r := VolumeStore(slots, lastTs);
  }

  /** The volume of the seconds `[lo, hi)`, read from the ring. */
  function WindowSum(slots: seq<real>, lo: int, hi: int): real
    requires |slots| == HISTORY_SEC
    decreases hi - lo
  {
    if hi <= lo then 0.0 else WindowSum(slots, lo, hi - 1) + slots[Slot(hi - 1)]
  }

  /** `getVolume(windowSec)` at time `now`: a window longer than the history
      is an error, a store that never saw a trade reports 0, and otherwise the
      seconds from `now - windowSec` up to, but not including, the last
      trade's second are summed. */
  function GetVolume(v: VolumeStore, windowSec: int, now: int): (r: Result<real>)
    requires Valid(v)
    ensures r.Failure? <==> windowSec > HISTORY_SEC
    ensures windowSec <= HISTORY_SEC && !HasLast(v) ==> r == Ok(0.0)
    ensures (windowSec <= HISTORY_SEC && HasLast(v)
             && ToSec(now) - windowSec >= ToSec(v.lastTs.value)) ==> r == Ok(0.0)
  {
    if windowSec > HISTORY_SEC then Failure("Requested volume for more seconds than the history holds")
    else if !HasLast(v) then Ok(0.0)
    else Ok(WindowSum(v.slots, ToSec(now) - windowSec, ToSec(v.lastTs.value)))
  }

  /** The window sum equals the plain sum of the slots it visits, in order. */
  lemma {:induction false} WindowSumIsSum(slots: seq<real>, lo: int, hi: int)
    requires |slots| == HISTORY_SEC && lo <= hi
    ensures WindowSum(slots, lo, hi)
      == Sum(seq(hi - lo, j requires 0 <= j < hi - lo => slots[Slot(lo + j)]))
    decreases hi - lo
  {
    var s := seq(hi - lo, j requires 0 <= j < hi - lo => slots[Slot(lo + j)]);
    if hi > lo {
      WindowSumIsSum(slots, lo, hi - 1);
      assert s[..|s| - 1] == seq(hi - 1 - lo, j requires 0 <= j < hi - 1 - lo => slots[Slot(lo + j)]);
    }
  }

  /** Non-negative slots give a non-negative volume. */
  lemma {:induction false} WindowSumNonNegative(slots: seq<real>, lo: int, hi: int)
    requires |slots| == HISTORY_SEC
    requires forall i :: 0 <= i < HISTORY_SEC ==> slots[i] >= 0.0
    ensures WindowSum(slots, lo, hi) >= 0.0
    decreases hi - lo
  {
    if hi > lo {
      WindowSumNonNegative(slots, lo, hi - 1);
    }
  }

  /** A store whose slots are non-negative reports a non-negative volume. */
  lemma GetVolumeNonNegative(v: VolumeStore, windowSec: int, now: int)
    requires Valid(v)
    requires forall i :: 0 <= i < HISTORY_SEC ==> v.slots[i] >= 0.0
    ensures GetVolume(v, windowSec, now).Ok? ==> GetVolume(v, windowSec, now).value >= 0.0
  {
    if windowSec <= HISTORY_SEC && HasLast(v) {
      WindowSumNonNegative(v.slots, ToSec(now) - windowSec, ToSec(v.lastTs.value));
    }
  }

  /** A window none of whose seconds maps to slot `k` ignores that slot. */
  lemma {:induction false} WindowSumAvoids(slots: seq<real>, lo: int, hi: int, k: nat)
    requires |slots| == HISTORY_SEC && k < HISTORY_SEC
    requires forall i :: 0 <= i < HISTORY_SEC && i != k ==> slots[i] == 0.0
    requires forall s :: lo <= s < hi ==> Slot(s) != k
    ensures WindowSum(slots, lo, hi) == 0.0
    decreases hi - lo
  {
    if hi > lo {
      WindowSumAvoids(slots, lo, hi - 1, k);
    }
  }

  /** Peels the oldest second off a window. */
  lemma {:induction false} WindowSumFront(slots: seq<real>, lo: int, hi: int)
    requires |slots| == HISTORY_SEC && lo < hi
    ensures WindowSum(slots, lo, hi) == slots[Slot(lo)] + WindowSum(slots, lo + 1, hi)
    decreases hi - lo
  {
    if hi - 1 > lo {
      WindowSumFront(slots, lo, hi - 1);
    }
  }

  /** The second of the last trade is not part of a window shorter than the
      history: right after a first trade, a query at the same instant reports 0. */
  lemma LastSecondExcluded(ts: int, amount: real, price: real, windowSec: int)
    requires ts > 0 && 0 <= windowSec < HISTORY_SEC
    ensures var t := ExchangeTrade("", price, amount, Some(ts));
      GetVolume(ProcessAll(Empty(), [t]), windowSec, ts) == Ok(0.0)
  {
    var t := ExchangeTrade("", price, amount, Some(ts));
    assert [t][..0] == [];
    assert ProcessAll(Empty(), [t]) == ProcessTrade(Empty(), t);
    var v := ProcessAll(Empty(), [t]);
    var tSec := ToSec(ts);
    FirstTradeNoFill(Empty(), t);
    forall s | tSec - windowSec <= s < tSec
      ensures Slot(s) != Slot(tSec)
    {
      RingDistinct(s, tSec);
    }
    WindowSumAvoids(v.slots, tSec - windowSec, tSec, Slot(tSec));
  }

  /** Two seconds less than an hour apart use different slots. */
  lemma RingDistinct(s: int, t: int)
    requires s < t < s + HISTORY_SEC
    ensures Slot(s) != Slot(t)
  {
    var qs, qt := s / HISTORY_SEC, t / HISTORY_SEC;
    assert s == qs * HISTORY_SEC + Slot(s);
    assert t == qt * HISTORY_SEC + Slot(t);
  }

  /** A full-hour window starts at the second one hour before the last
      trade, whose slot the last trade's second now occupies: right after a
      first trade, `getVolume(3600)` at the same instant reports that trade. */
  lemma FullWindowSeesLastSecond(ts: int, amount: real, price: real)
    requires ts > 0
    ensures var t := ExchangeTrade("", price, amount, Some(ts));
      GetVolume(ProcessAll(Empty(), [t]), HISTORY_SEC, ts) == Ok(amount * price)
  {
    var t := ExchangeTrade("", price, amount, Some(ts));
    assert [t][..0] == [];
    assert ProcessAll(Empty(), [t]) == ProcessTrade(Empty(), t);
    var v := ProcessAll(Empty(), [t]);
    var tSec := ToSec(ts);
    FirstTradeNoFill(Empty(), t);
    HourWindowSum(v.slots, tSec);
    assert v.slots[Slot(tSec)] == 0.0 + TradeVolume(t);
    assert HasLast(v) && v.lastTs.value == ts;
    assert GetVolume(v, HISTORY_SEC, ts) == Ok(WindowSum(v.slots, tSec - HISTORY_SEC, tSec));
    assert WindowSum(v.slots, tSec - HISTORY_SEC, tSec) == amount * price;
  }

  /** An hour-long window ending at `hi` visits slot `Slot(hi)` exactly once,
      as its oldest second. */
  lemma HourWindowSum(slots: seq<real>, hi: int)
    requires |slots| == HISTORY_SEC
    requires forall i :: 0 <= i < HISTORY_SEC && i != Slot(hi) ==> slots[i] == 0.0
    ensures WindowSum(slots, hi - HISTORY_SEC, hi) == slots[Slot(hi)]
  {
    var lo := hi - HISTORY_SEC;
    assert Slot(lo) == Slot(hi) by {
      assert lo + HISTORY_SEC == hi;
    }
    WindowSumFront(slots, lo, hi);
    forall s | lo + 1 <= s < hi
      ensures Slot(s) != Slot(hi)
    {
      RingDistinct(s, hi);
    }
    WindowSumAvoids(slots, lo + 1, hi, Slot(hi));
  }

  /** `getVolume` as written, one slot per iteration. */
  method GetVolumeLoop(v: VolumeStore, windowSec: int, now: int) returns (r: Result<real>)
    requires Valid(v)
    ensures r == GetVolume(v, windowSec, now)
  {
    if windowSec > HISTORY_SEC {
      return Failure("Requested volume for more seconds than the history holds");
    }
    if !(v.lastTs.Some? && v.lastTs.value != 0) {
      return Ok(0.0);
    }
    var startSec := ToSec(now) - windowSec;
    var endSec := ToSec(v.lastTs.value);
    var volume := 0.0;
    var t := startSec;
    while t < endSec
      invariant startSec <= t && (t <= endSec || t == startSec)
      invariant volume == WindowSum(v.slots, startSec, t)
      decreases endSec - t
    {
      volume := volume + v.slots[Slot(t)];
      t := t + 1;
    }
    return Ok(volume);
  }
}
