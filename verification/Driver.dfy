/** The driver around the controller: how a retry chain is put together for a frame,
    and which transmit statuses can come back for it. */
module Driver {
  import opened FixedPoint
  import opened RateStats
  import opened HtRates
  import opened HtModel
  import opened HtFeedback
  import opened HtRun
  import HtSampling
  import opened HtStation

  const NO_FLAGS: RateFlags := RateFlags(false, false, false, false, false, false)
  const NO_RATE: TxRate := TxRate(-1, NO_FLAGS, 0)

  // One entry of the hardware's rate control: struct aml_ratecontrol.
  datatype RateCtrl = RateCtrl(rateIndex: int, tryNum: nat, flags: RateFlags)

  predicate Usable(r: TxRate) {
    r.idx >= 0 && r.count > 0
  }

  // A slot of the chain keeps what the controller asked for, or takes the station's
  // rate table, with two tries.
  function Chosen(asked: TxRate, table: seq<Slot>, i: nat): TxRate
    requires i < |table|
  {
    if Usable(asked) then asked else TxRate(table[i].idx, table[i].flags, 2)
  }

  // The fill stops after the first slot that came out empty.
  predicate Reached(asked: seq<TxRate>, table: seq<Slot>, i: nat)
    requires i <= |asked| == |table|
  {
    i == 0 || (Reached(asked, table, i - 1) && Usable(Chosen(asked[i - 1], table, i - 1)))
  }

  function Filled(asked: seq<TxRate>, table: seq<Slot>): (chain: seq<TxRate>)
    requires |asked| == |table| == 4
    ensures |chain| == 4
  {
    seq(4, i requires 0 <= i < 4 =>
      if i == 3 then NO_RATE else if Reached(asked, table, i) then Chosen(asked[i], table, i) else asked[i])
  }

  // rate_control_fill_sta_table, for the three rates that the driver asks it to fill.
  method FillStaTable(rates: array<TxRate>, table: array<Slot>)
    requires rates.Length == table.Length == 4
    modifies rates
    ensures rates[..] == Filled(old(rates[..]), table[..])
  {
    ghost var asked, slots := rates[..], table[..];
    var i := 0;
    var open := true;
    while i < 3 && open
      invariant 0 <= i <= 3 && table[..] == slots
      invariant forall k :: 0 <= k < 4 ==>
                              rates[k] == if k < i then Chosen(asked[k], slots, k) else asked[k]
      invariant forall k :: 0 <= k < i ==> Reached(asked, slots, k)
      invariant if open then Reached(asked, slots, i) else i > 0 && !Reached(asked, slots, i)
    {
      if !Usable(rates[i]) {
        rates[i] := TxRate(table[i].idx, table[i].flags, 2);
      }
      open := Usable(rates[i]);
      i := i + 1;
    }
    StaysClosed(asked, slots, i);
    rates[3] := NO_RATE;
  }

  lemma {:induction false} StaysClosed(asked: seq<TxRate>, table: seq<Slot>, i: nat)
    requires i <= 3 && |asked| == |table| == 4
    ensures !Reached(asked, table, i) ==> forall k :: i <= k <= 3 ==> !Reached(asked, table, k)
    decreases 3 - i
  {
    if !Reached(asked, table, i) && i < 3 {
      StaysClosed(asked, table, i + 1);
    }
  }

  // The hardware entries of minstrel_find_rate: the chain with fixed numbers of tries
  // in its first three slots.
  function Control(chain: seq<TxRate>): (rc: seq<RateCtrl>)
    requires |chain| == 4
    ensures |rc| == 4
  {
    [RateCtrl(chain[0].idx, 2, chain[0].flags), RateCtrl(chain[1].idx, 2, chain[1].flags),
     RateCtrl(chain[2].idx, 96, chain[2].flags), RateCtrl(chain[3].idx, chain[3].count, chain[3].flags)]
  }

  // What the controller asked for: nothing, or a sample in one slot, unless that was
  // dropped.
  function Asked(sample: Sample, fit: bool): (asked: seq<TxRate>)
    requires sample.Sampled? ==> sample.slot < 2
    ensures |asked| == 4
  {
    seq(4, i => if sample.Sampled? && fit && i == sample.slot then sample.rate else NO_RATE)
  }

  // The part of minstrel_find_rate that puts the chain together.
  method BuildChain(table: array<Slot>, sample: Sample, fit: bool) returns (rc: array<RateCtrl>)
    requires table.Length == 4 && (sample.Sampled? ==> sample.slot < 2)
    ensures fresh(rc) && rc[..] == Control(Filled(Asked(sample, fit), table[..]))
  {
    var rates := new TxRate[4](_ => NO_RATE);
    if sample.Sampled? && fit {
      rates[sample.slot] := sample.rate;
    }
    assert rates[..] == Asked(sample, fit);
    hide Filled, Asked, Chosen, Reached;
    FillStaTable(rates, table);
    ghost var chain := rates[..];
    rc := new RateCtrl[4];
    var i := 0;
    while i < 4
      invariant 0 <= i <= 4 && rates[..] == chain
      invariant forall k :: 0 <= k < i ==> rc[k] == RateCtrl(rates[k].idx, rates[k].count, rates[k].flags)
    {
      rc[i] := RateCtrl(rates[i].idx, rates[i].count, rates[i].flags);
      i := i + 1;
    }
    rc[0] := rc[0].(tryNum := 2);
    rc[1] := rc[1].(tryNum := 2);
    rc[2] := rc[2].(tryNum := 96);
    assert rc[..] == Control(chain);
  }

  // ----- What comes back -----

  // The hardware reports two four-bit retry counters in one byte.
  function RetriesOf(retryCnt: nat): (n: nat)
    ensures n <= 30
  {
    retryCnt / 16 % 16 + retryCnt % 16
  }

  lemma RetriesAdd(short: nat, long: nat)
    requires short < 16 && long < 16
    ensures RetriesOf(16 * short + long) == short + long
  {
  }

  function Off(rc: RateCtrl): RateCtrl {
    rc.(tryNum := 0)
  }

  // The entries after the driver has set them to what was really tried: an acknowledged
  // frame ended at the entry that its last retry fell in, any other frame is put down
  // to the first entry alone.
  function Rewritten(rc: seq<RateCtrl>, retries: nat, ok: bool): (r: seq<RateCtrl>)
    requires |rc| == 4
    ensures |r| == 4
  {
    var t0, t1 := rc[0].tryNum, rc[1].tryNum;
    if !ok then [rc[0], Off(rc[1]), Off(rc[2]), Off(rc[3])]
    else if retries < t0 then [rc[0].(tryNum := retries + 1), Off(rc[1]), Off(rc[2]), Off(rc[3])]
    else if retries < t0 + t1 then [rc[0], rc[1].(tryNum := retries - t0 + 1), Off(rc[2]), Off(rc[3])]
    else [rc[0], rc[1], rc[2].(tryNum := retries - t0 - t1 + 1), Off(rc[3])]
  }

  // The part of drv_tx_complete_task that does so, for a data frame of a station that
  // takes part in rate control.
  method CompleteTask(rc: array<RateCtrl>, retryCnt: nat, ok: bool)
    requires rc.Length == 4
    modifies rc
    ensures rc[..] == Rewritten(old(rc[..]), RetriesOf(retryCnt), ok)
  {
    ghost var was := rc[..];
    var sr, lr := retryCnt / 16 % 16, retryCnt % 16;
    rc[3] := Off(rc[3]);
    if ok {
      if lr + sr < rc[0].tryNum {
        rc[0] := rc[0].(tryNum := lr + sr + 1);
        rc[1] := Off(rc[1]);
        rc[2] := Off(rc[2]);
      } else if lr + sr < rc[0].tryNum + rc[1].tryNum {
        rc[1] := rc[1].(tryNum := lr + sr - rc[0].tryNum + 1);
        rc[2] := Off(rc[2]);
      } else {
        rc[2] := rc[2].(tryNum := lr + sr - rc[0].tryNum - rc[1].tryNum + 1);
      }
    } else {
      rc[1] := Off(rc[1]);
      rc[2] := Off(rc[2]);
    }
    assert rc[..] == Rewritten(was, RetriesOf(retryCnt), ok);
  }

  // Tries are numbered from 0; try j uses the first entry whose tries are not used up.
  function EntryOf(rc: seq<RateCtrl>, j: nat): (e: nat)
    requires |rc| == 4
    ensures e < 3
  {
    if j < rc[0].tryNum then 0 else if j < rc[0].tryNum + rc[1].tryNum then 1 else 2
  }

  // How many of the first k tries use entry e.
  function TriesAt(rc: seq<RateCtrl>, k: nat, e: nat): nat
    requires |rc| == 4
  {
    if k == 0 then 0 else TriesAt(rc, k - 1, e) + if EntryOf(rc, k - 1) == e then 1 else 0
  }

  // The tries that a frame is put down to: those up to the acknowledgement, or, when
  // there was none, those of the first entry.
  function TriesTold(rc: seq<RateCtrl>, retries: nat, ok: bool): nat
    requires |rc| == 4
  {
    if ok then retries + 1 else rc[0].tryNum
  }

  lemma {:induction false} TriesAtIs(rc: seq<RateCtrl>, k: nat)
    requires |rc| == 4
    ensures var t0, t1 := rc[0].tryNum, rc[1].tryNum;
            && TriesAt(rc, k, 0) == (if k < t0 then k else t0)
            && TriesAt(rc, k, 1) == (if k < t0 then 0 else if k < t0 + t1 then k - t0 else t1)
            && TriesAt(rc, k, 2) == (if k < t0 + t1 then 0 else k - t0 - t1)
            && TriesAt(rc, k, 3) == 0
    decreases k
  {
    if k > 0 {
      TriesAtIs(rc, k - 1);
    }
  }

  // The rewriting tells the truth about every acknowledged frame: each entry shows as
  // many tries as were made with it, and they add up to one more than the retries.
  lemma RewrittenCounts(rc: seq<RateCtrl>, retries: nat, ok: bool)
    requires |rc| == 4
    ensures var r, k := Rewritten(rc, retries, ok), TriesTold(rc, retries, ok);
            && (forall e :: 0 <= e < 4 ==> r[e] == rc[e].(tryNum := TriesAt(rc, k, e)))
            && r[0].tryNum + r[1].tryNum + r[2].tryNum + r[3].tryNum == k
  {
    TriesAtIs(rc, TriesTold(rc, retries, ok));
  }

  function ReportOf(rc: RateCtrl): TxRate {
    if rc.tryNum != 0 then TxRate(rc.rateIndex, rc.flags, rc.tryNum) else NO_RATE
  }

  // The status that the rewritten entries become.
  function StatusOf(rc: seq<RateCtrl>, ack: bool, expired: bool): Status
    requires |rc| == 4
  {
    Status(false, false, ack, 0, 0, seq(4, i requires 0 <= i < 4 => ReportOf(rc[i])), expired)
  }

  // minstrel_tx_complete.
  method TxComplete(rc: array<RateCtrl>, ack: bool, expired: bool) returns (s: Status)
    requires rc.Length == 4
    ensures s == StatusOf(rc[..], ack, expired)
  {
    var ar := new TxRate[4];
    var i := 0;
    while i < 4
      invariant 0 <= i <= 4
      invariant forall k :: 0 <= k < i ==> ar[k] == ReportOf(rc[k])
    {
      ar[i] := NO_RATE;
      if rc[i].tryNum != 0 {
        ar[i] := TxRate(rc[i].rateIndex, rc[i].flags, rc[i].tryNum);
      }
      i := i + 1;
    }
    s := Status(false, false, ack, 0, 0, ar[..], expired);
    assert ar[..] == StatusOf(rc[..], ack, expired).rates;
  }

  // The status for a frame that was sent with the given entries.
  function Answer(rc: seq<RateCtrl>, retries: nat, ok: bool, expired: bool): Status
    requires |rc| == 4
  {
    StatusOf(Rewritten(rc, retries, ok), ok, expired)
  }

  // ----- Where it goes -----

  // The hardware names cell c as the controller encodes it.
  predicate Names(idx: int, flags: RateFlags, c: nat, cckRates: seq<nat>)
    requires c < CELLS && |cckRates| == 4
  {
    && idx == EncodeIdx(c / MCS_GROUP_RATES, c % MCS_GROUP_RATES, cckRates)
    && flags == GroupFlags(c / MCS_GROUP_RATES).(useRtsCts := flags.useRtsCts)
  }

  // The encoding of cell c leads back to it.
  predicate Recognised(c: nat, cckRates: seq<nat>, supported: Masks)
    requires c < CELLS && |cckRates| == 4 && Shaped(supported)
  {
    var g, i := c / MCS_GROUP_RATES, c % MCS_GROUP_RATES;
    && Listed(g, i)
    && (g == CCK_GROUP ==>
          && (forall k :: 0 <= k < i % 4 ==> cckRates[k] != cckRates[i % 4])
          && supported[CCK_GROUP][i % 4] == (i < 4))
  }

  // Whatever the cell, its encoding is one that the controller can look up, and the
  // lookup finds the cell exactly if it is recognised.
  lemma NamesDecodes(r: TxRate, c: nat, cckRates: seq<nat>, supported: Masks)
    requires c < CELLS && |cckRates| == 4 && Shaped(supported) && Names(r.idx, r.flags, c, cckRates)
    ensures Decodable(r) && (Target(r, cckRates, supported) == c <==> Recognised(c, cckRates, supported))
    ensures r.idx >= 0 && (r.count > 0 ==> Used(r, cckRates))
  {
    var g, i := c / MCS_GROUP_RATES, c % MCS_GROUP_RATES;
    assert r == TxRate(EncodeIdx(g, i, cckRates), GroupFlags(g).(useRtsCts := r.flags.useRtsCts), r.count);
    RoundTrip(g, i, cckRates, supported[CCK_GROUP], r.flags.useRtsCts, r.count);
    if g == CCK_GROUP {
      assert cckRates[c % 4] == r.idx;
    }
    hide Listed;
  }

  // The cells that the first three slots of a rate table were written for.
  datatype Labels = Labels(first: nat, second: nat, third: nat)

  predicate Labelled(table: seq<Slot>, l: Labels, cckRates: seq<nat>)
    requires |cckRates| == 4
  {
    && |table| == 4 && l.first < CELLS && l.second < CELLS && l.third < CELLS
    && Names(table[0].idx, table[0].flags, l.first, cckRates)
    && Names(table[1].idx, table[1].flags, l.second, cckRates)
    && Names(table[2].idx, table[2].flags, l.third, cckRates)
  }

  // The table that a station has just written, with hardware that takes three rates as
  // the driver's does, is labelled with the rates it has chosen. They are recognised
  // unless they are CCK rates.
  lemma WrittenTable(st: Station)
    requires st.NamesOk() && st.NamedOk() && st.TableWritten() && st.maxRates >= 3
    ensures Labelled(st.rateTable[..], Labels(st.maxTp[0], st.maxTp[1], st.maxProb), st.cckRates)
    ensures forall c :: c in {st.maxTp[0], st.maxTp[1], st.maxProb} && c / MCS_GROUP_RATES != CCK_GROUP ==>
                          Recognised(c, st.cckRates, st.supported)
  {
    hide Caps, EncodeIdx, GroupFlags, Listed;
  }

  // A sample that names its cell, or none.
  predicate SampleNames(sample: Sample, cckRates: seq<nat>)
    requires |cckRates| == 4
  {
    sample.Sampled? ==>
      sample.slot < 2 && sample.cell < CELLS && sample.rate.count == 1
      && Names(sample.rate.idx, sample.rate.flags, sample.cell, cckRates)
  }

  // The cells that a frame is tried at, slot by slot: a sample that was not dropped
  // takes its slot, the rest follows the table.
  function ChainCells(sample: Sample, fit: bool, l: Labels): (cells: seq<nat>)
    ensures |cells| == 3
  {
    if sample.Sampled? && fit
    then (if sample.slot == 0 then [sample.cell, l.second, l.third] else [l.first, sample.cell, l.third])
    else [l.first, l.second, l.third]
  }

  // The entries that a frame goes out with name these cells, with two, two and 96 tries.
  predicate ChainOf(rc: seq<RateCtrl>, cells: seq<nat>, cckRates: seq<nat>)
    requires |cckRates| == 4
  {
    && |rc| == 4 && |cells| == 3
    && (forall i :: 0 <= i < 3 ==> cells[i] < CELLS && Names(rc[i].rateIndex, rc[i].flags, cells[i], cckRates))
    && rc[0].tryNum == rc[1].tryNum == 2 && rc[2].tryNum == 96
  }

  lemma FilledNames(sample: Sample, fit: bool, table: seq<Slot>, l: Labels, cckRates: seq<nat>)
    requires |cckRates| == 4 && Labelled(table, l, cckRates) && SampleNames(sample, cckRates)
    ensures ChainOf(Control(Filled(Asked(sample, fit), table)), ChainCells(sample, fit, l), cckRates)
  {
    hide EncodeIdx, GroupFlags;
    var asked := Asked(sample, fit);
    assert Usable(Chosen(asked[0], table, 0)) && Usable(Chosen(asked[1], table, 1));
    ReachedNext(asked, table, 0);
    ReachedNext(asked, table, 1);
    hide Reached;
  }

  // In full: a sample that was kept is in its slot, with one try, and the other slots take
  // the table in order, with two. The fourth slot ends the chain. The hardware then gets
  // two tries in each of the first two slots and 96 in the third.
  lemma ChainIs(sample: Sample, fit: bool, table: seq<Slot>, l: Labels, cckRates: seq<nat>, i: nat)
    requires |cckRates| == 4 && Labelled(table, l, cckRates) && SampleNames(sample, cckRates) && i < 3
    ensures var slot, rc := Filled(Asked(sample, fit), table)[i], Control(Filled(Asked(sample, fit), table))[i];
            && (if sample.Sampled? && fit && sample.slot == i then slot == sample.rate && slot.count == 1
                else slot.idx == table[i].idx && slot.flags == table[i].flags && slot.count == 2)
            && rc.rateIndex == slot.idx && rc.flags == slot.flags && rc.tryNum == if i == 2 then 96 else 2
    ensures Filled(Asked(sample, fit), table)[3].idx == -1 && Filled(Asked(sample, fit), table)[3].count == 0
  {
    hide EncodeIdx, GroupFlags;
    var asked := Asked(sample, fit);
    ReachedNext(asked, table, 0);
    ReachedNext(asked, table, 1);
    hide Reached;
  }

  lemma ReachedNext(asked: seq<TxRate>, table: seq<Slot>, i: nat)
    requires i < |asked| == |table| && Reached(asked, table, i) && Usable(Chosen(asked[i], table, i))
    ensures Reached(asked, table, i + 1)
  {
  }

  // The entry that a frame ended at.
  function LastEntry(rc: seq<RateCtrl>, retries: nat, ok: bool): (e: nat)
    requires |rc| == 4
    ensures e < 3
  {
    if ok then EntryOf(rc, retries) else 0
  }

  // Every frame, whatever its retries, comes back as a well-formed status of one
  // subframe: its chain ends at the entry the frame ended at, each entry counts the
  // tries made with it, the last one alone is credited, once, if the frame was
  // acknowledged, and each finds its cell exactly if that is recognised.
  lemma FeedbackReaches(rc: seq<RateCtrl>, cells: seq<nat>, retries: nat, ok: bool, expired: bool,
                        cckRates: seq<nat>, supported: Masks)
    requires |cckRates| == 4 && Shaped(supported) && ChainOf(rc, cells, cckRates) && retries <= 30
    ensures var s, e, k := Answer(rc, retries, ok, expired), LastEntry(rc, retries, ok), TriesTold(rc, retries, ok);
            && WellFormed(s, cckRates, supported) && Subframes(s) == 1 && !Ignored(s)
            && ChainLength(s.rates, cckRates) == e + 1
            && (forall i :: 0 <= i <= e ==>
                              && EntryEvent(s, cckRates, i) == Report(TriesAt(rc, k, i), if ok && i == e then 1 else 0)
                              && (Target(s.rates[i], cckRates, supported) == cells[i] <==>
                                  Recognised(cells[i], cckRates, supported)))
  {
    var s, e, k := Answer(rc, retries, ok, expired), LastEntry(rc, retries, ok), TriesTold(rc, retries, ok);
    RewrittenCounts(rc, retries, ok);
    TriesAtIs(rc, k);
    hide Names, Target, Decodable, Used, Recognised, TriesAt;
    forall i | 0 <= i < 4
      ensures i <= e ==> s.rates[i] == TxRate(rc[i].rateIndex, rc[i].flags, TriesAt(rc, k, i))
      ensures i <= e ==> 0 < TriesAt(rc, k, i) <= 96
      ensures i > e ==> s.rates[i] == NO_RATE
    {
    }
    forall i | 0 <= i < 4
      ensures Decodable(s.rates[i]) && (Used(s.rates[i], cckRates) <==> i <= e)
      ensures i <= e ==> (Target(s.rates[i], cckRates, supported) == cells[i] <==>
                          Recognised(cells[i], cckRates, supported))
    {
      if i <= e {
        NamesDecodes(s.rates[i], cells[i], cckRates, supported);
      } else {
        NoRate(cckRates);
      }
    }
  }

  lemma NoRate(cckRates: seq<nat>)
    ensures Decodable(NO_RATE) && !Used(NO_RATE, cckRates)
  {
  }

  // How many of the first k tries were made at cell c.
  function TriesOn(rc: seq<RateCtrl>, cells: seq<nat>, k: nat, c: nat): nat
    requires |rc| == 4 && |cells| == 3
  {
    if k == 0 then 0 else TriesOn(rc, cells, k - 1, c) + if cells[EntryOf(rc, k - 1)] == c then 1 else 0
  }

  function If(b: bool, n: nat): nat {
    if b then n else 0
  }

  // The same, entry by entry, for the first n entries.
  function TriesBy(rc: seq<RateCtrl>, cells: seq<nat>, k: nat, c: nat, n: nat): nat
    requires |rc| == 4 && |cells| == 3 && n <= 3
  {
    if n == 0 then 0 else TriesBy(rc, cells, k, c, n - 1) + If(cells[n - 1] == c, TriesAt(rc, k, n - 1))
  }

  lemma TriesByThree(rc: seq<RateCtrl>, cells: seq<nat>, k: nat, c: nat)
    requires |rc| == 4 && |cells| == 3
    ensures TriesBy(rc, cells, k, c, 3) ==
            If(cells[0] == c, TriesAt(rc, k, 0)) + If(cells[1] == c, TriesAt(rc, k, 1)) +
            If(cells[2] == c, TriesAt(rc, k, 2))
  {
    assert TriesBy(rc, cells, k, c, 1) == If(cells[0] == c, TriesAt(rc, k, 0));
    assert TriesBy(rc, cells, k, c, 2) == TriesBy(rc, cells, k, c, 1) + If(cells[1] == c, TriesAt(rc, k, 1));
  }

  lemma {:induction false} TriesOnIs(rc: seq<RateCtrl>, cells: seq<nat>, k: nat, c: nat)
    requires |rc| == 4 && |cells| == 3
    ensures TriesOn(rc, cells, k, c) == TriesBy(rc, cells, k, c, 3)
    decreases k
  {
    TriesByThree(rc, cells, k, c);
    if k > 0 {
      TriesOnIs(rc, cells, k - 1, c);
      TriesByThree(rc, cells, k - 1, c);
    }
  }

  // Entries after the last one were not tried.
  lemma TriesEnd(rc: seq<RateCtrl>, cells: seq<nat>, retries: nat, ok: bool, c: nat)
    requires |rc| == 4 && |cells| == 3
    ensures var k, e := TriesTold(rc, retries, ok), LastEntry(rc, retries, ok);
            TriesBy(rc, cells, k, c, 3) == TriesBy(rc, cells, k, c, e + 1)
  {
    var k := TriesTold(rc, retries, ok);
    TriesAtIs(rc, k);
    hide TriesAt;
    assert TriesBy(rc, cells, k, c, 2) == TriesBy(rc, cells, k, c, 1) + If(cells[1] == c, TriesAt(rc, k, 1));
  }

  lemma ReportsNext(s: Status, cckRates: seq<nat>, supported: Masks, c: nat, n: nat)
    requires WellFormed(s, cckRates, supported) && n < 3
    ensures var e, here := EntryEvent(s, cckRates, n), Target(s.rates[n], cckRates, supported) == c;
            && Tried(Reports(s, cckRates, supported, c, n + 1)) ==
               Tried(Reports(s, cckRates, supported, c, n)) + If(here, e.tries)
            && Acked(Reports(s, cckRates, supported, c, n + 1)) ==
               Acked(Reports(s, cckRates, supported, c, n)) + If(here, e.acked)
    ensures Reports(s, cckRates, supported, c, 0) == []
  {
    hide Target, Decodable, Used, EntryEvent, Tried, Acked;
    TriedMore(Reports(s, cckRates, supported, c, n), EntryEvent(s, cckRates, n));
  }

  // The first n entries that count, in terms of the tries made with them.
  lemma {:induction false} EntriesTell(s: Status, rc: seq<RateCtrl>, cells: seq<nat>, k: nat, e: nat, ack: bool,
                                       cckRates: seq<nat>, supported: Masks, c: nat, n: nat)
    requires WellFormed(s, cckRates, supported) && |s.rates| == 4 && |rc| == 4 && |cells| == 3 && n <= e + 1 <= 3
    requires forall i :: 0 <= i <= e ==>
                           && EntryEvent(s, cckRates, i) == Report(TriesAt(rc, k, i), if ack && i == e then 1 else 0)
                           && Target(s.rates[i], cckRates, supported) == cells[i]
    ensures Tried(Reports(s, cckRates, supported, c, n)) == TriesBy(rc, cells, k, c, n)
    ensures Acked(Reports(s, cckRates, supported, c, n)) == If(ack && n == e + 1 && cells[e] == c, 1)
    decreases n
  {
    hide Target, WellFormed, EntryEvent, TriesAt;
    if n == 0 {
      ReportsNext(s, cckRates, supported, c, 0);
    } else {
      EntriesTell(s, rc, cells, k, e, ack, cckRates, supported, c, n - 1);
      ReportsNext(s, cckRates, supported, c, n - 1);
      hide Reports, Tried, Acked;
    }
  }

  // So every cell is told exactly the tries made at it, and the acknowledgement if the
  // last try was made at it.
  lemma CellFeedback(rc: seq<RateCtrl>, cells: seq<nat>, retries: nat, ok: bool, expired: bool,
                     cckRates: seq<nat>, supported: Masks, c: nat)
    requires |cckRates| == 4 && Shaped(supported) && ChainOf(rc, cells, cckRates) && retries <= 30
    requires forall i :: 0 <= i <= LastEntry(rc, retries, ok) ==> Recognised(cells[i], cckRates, supported)
    ensures var s := Answer(rc, retries, ok, expired);
            && WellFormed(s, cckRates, supported)
            && Tried(CellReports(s, cckRates, supported, c)) == TriesOn(rc, cells, TriesTold(rc, retries, ok), c)
            && Acked(CellReports(s, cckRates, supported, c)) == If(ok && cells[LastEntry(rc, retries, ok)] == c, 1)
  {
    var s, e, k := Answer(rc, retries, ok, expired), LastEntry(rc, retries, ok), TriesTold(rc, retries, ok);
    FeedbackReaches(rc, cells, retries, ok, expired, cckRates, supported);
    TriesOnIs(rc, cells, k, c);
    TriesEnd(rc, cells, retries, ok, c);
    FourRates(s, cckRates, supported);
    hide Names, Target, Recognised, WellFormed, ChainLength, EntryEvent, Reports, Tried, Acked, TriesAt, TriesOn,
         TriesBy, Answer;
    EntriesTell(s, rc, cells, k, e, ok, cckRates, supported, c, e + 1);
  }

  // ----- Sending a frame -----

  // The bandwidth and the highest rate that the received signal allows.
  datatype Signal = Signal(bw: nat, maxRate: nat)

  // A sample of less bandwidth than the signal allows is not worth while, one of a
  // higher rate is hopeless.
  predicate Narrow(sample: Sample, sig: Signal)
    requires sample.Sampled?
  {
    Bandwidth(sample.rate.flags) < sig.bw
  }

  predicate Hopeless(sample: Sample, sig: Signal) {
    sample.Sampled? && !Narrow(sample, sig) && sig.maxRate < sample.rate.idx
  }

  predicate Fitable(sample: Sample, sig: Signal) {
    sample.Sampled? && !Narrow(sample, sig) && !Hopeless(sample, sig)
  }

  // In terms of the sampled cell: its group says how wide it is, and outside the CCK group
  // its index is the one that the signal limits.
  lemma FitableIff(sample: Sample, sig: Signal, cckRates: seq<nat>)
    requires |cckRates| == 4 && SampleNames(sample, cckRates)
    ensures sample.NoSample? ==> !Fitable(sample, sig) && !Hopeless(sample, sig)
    ensures sample.Sampled? ==>
              var g := sample.cell / MCS_GROUP_RATES;
              var width := if g in {9, 10} then 2 else if g in {2, 3, 7, 8} then 1 else 0;
              var idx := if g == 4 then cckRates[sample.cell % 4] else sample.cell % MCS_GROUP_RATES;
              && (Fitable(sample, sig) <==> width >= sig.bw && idx <= sig.maxRate)
              && (Hopeless(sample, sig) <==> width >= sig.bw && idx > sig.maxRate)
  {
    if sample.Sampled? {
      GroupsInOrder(sample.cell / MCS_GROUP_RATES);
    }
  }

  // A hopeless sample is taken as a sign that the signal got worse: the statistics of
  // all rates at least two above the highest allowed one start over.
  function AfterDrop(sample: Sample, sig: Signal, supported: Masks, was: seq<Stats>): (r: seq<Stats>)
    requires Shaped(supported) && |was| == CELLS
    ensures |r| == CELLS
  {
    if Hopeless(sample, sig)
    then seq(CELLS, c requires 0 <= c < CELLS => Unfit(supported, sig.maxRate, was[c], c))
    else was
  }

  // What a drop leaves of a cell: everything, or a single failed attempt.
  lemma DropClears(sample: Sample, sig: Signal, supported: Masks, was: seq<Stats>, c: nat)
    requires Shaped(supported) && |was| == CELLS && c < CELLS
    ensures var now := AfterDrop(sample, sig, supported, was)[c];
            if Hopeless(sample, sig) && Has(supported, c) && c % MCS_GROUP_RATES >= sig.maxRate + 2
              && was[c].succHist > 0
            then
              && Counted(now) == 1 && Succeeded(now) == 0
              && now == was[c].(attempts := 1, lastAttempts := 0, attHist := 0, success := 0, lastSuccess := 0,
                                succHist := 0, tpAvg := 0)
            else now == was[c]
  {
    hide Has;
  }

  // check_is_rate_fitable.
  method CheckFitable(st: Station, sample: Sample, sig: Signal) returns (fit: bool)
    requires st.Valid()
    modifies st.rates
    ensures st.Valid() && (old(st.TableWritten()) ==> st.TableWritten())
    ensures fit == Fitable(sample, sig)
    ensures st.rates[..] == AfterDrop(sample, sig, st.supported, old(st.rates[..]))
  {
    hide Caps, Listed, Station.StatsOk, Station.AirOk, Station.ListsOk, Station.CursorsOk, Station.LoadOk,
         Station.TableWritten, Unfit;
    if !sample.Sampled? || Bandwidth(sample.rate.flags) < sig.bw {
      return false;
    }
    if sig.maxRate < sample.rate.idx {
      ghost var was := st.rates[..];
      st.ClearUnfit(sig.maxRate);
      assert forall c :: 0 <= c < CELLS ==> st.rates[..][c] == Unfit(st.supported, sig.maxRate, was[c], c);
      return false;
    }
    return true;
  }

  // minstrel_find_rate for an HT station without a fixed rate: the entries of a frame
  // name the sample, if there is one that suits the signal, and otherwise the rates of
  // the table.
  method FindRate(st: Station, sig: Signal, ghost l: Labels) returns (entries: array<RateCtrl>, sample: Sample)
    requires st.Valid() && Labelled(st.rateTable[..], l, st.cckRates)
    modifies st`sampleWait, st`sampleTries, st`sampleGroup, st.groups, st.rates
    ensures st.Valid() && (old(st.TableWritten()) ==> st.TableWritten())
    ensures st.BudgetNow() == HtSampling.Asked(old(st.BudgetNow()), sample.Sampled?)
    ensures sample.Sampled? ==> HtSampling.Issues(old(st.BudgetNow()), true)
    ensures st.rates[..] == AfterDrop(sample, sig, st.supported, old(st.rates[..])) && SampleNames(sample, st.cckRates)
    ensures fresh(entries) && entries.Length == 4
    ensures ChainOf(entries[..], ChainCells(sample, Fitable(sample, sig), l), st.cckRates)
  {
    hide Caps, Listed, Names, Labelled, ChainOf, Filled, Asked, Control, EncodeIdx, GroupFlags, AfterDrop, Fitable,
         Station.StatsOk, Station.AirOk, Station.ListsOk, Station.CursorsOk, Station.LoadOk, Station.TableWritten,
         Station.WasWritten;
    st.WrittenIs();
    sample := st.GetRate();
    st.WrittenIs();
    SampleIs(st, sample);
    var fit := CheckFitable(st, sample, sig);
    entries := BuildChain(st.rateTable, sample, fit);
    FilledNames(sample, fit, st.rateTable[..], l, st.cckRates);
  }

  lemma SampleIs(st: Station, sample: Sample)
    requires st.Configured() && (sample.Sampled? ==> st.Encoded(sample))
    ensures SampleNames(sample, st.cckRates)
  {
    hide Caps, EncodeIdx, GroupFlags;
    if sample.Sampled? {
      PlainFlags(sample.cell);
    }
  }

  lemma PlainFlags(c: nat)
    requires c < CELLS
    ensures var f := GroupFlags(c / MCS_GROUP_RATES); f.(useRtsCts := f.useRtsCts) == f
  {
  }

  // ----- Completing a frame -----

  // What becomes of a frame: the hardware's retry count, whether it was acknowledged,
  // and whether the interval ends with it.
  datatype Outcome = Outcome(retryCnt: nat, ok: bool, expired: bool)

  function StatusFor(rc: seq<RateCtrl>, o: Outcome): Status
    requires |rc| == 4
  {
    Answer(rc, RetriesOf(o.retryCnt), o.ok, o.expired)
  }

  // The tries at cell c that a frame is put down to, and its acknowledgement.
  function TriesAs(rc: seq<RateCtrl>, cells: seq<nat>, o: Outcome, c: nat): nat
    requires |rc| == 4 && |cells| == 3
  {
    TriesOn(rc, cells, TriesTold(rc, RetriesOf(o.retryCnt), o.ok), c)
  }

  function AckAs(rc: seq<RateCtrl>, cells: seq<nat>, o: Outcome, c: nat): nat
    requires |rc| == 4 && |cells| == 3
  {
    If(o.ok && cells[LastEntry(rc, RetriesOf(o.retryCnt), o.ok)] == c, 1)
  }

  // Every cell that the frame is put down to is recognised.
  predicate AllRecognised(rc: seq<RateCtrl>, cells: seq<nat>, o: Outcome, cckRates: seq<nat>, supported: Masks)
    requires |rc| == 4 && |cells| == 3 && |cckRates| == 4 && Shaped(supported)
  {
    forall i :: 0 <= i <= LastEntry(rc, RetriesOf(o.retryCnt), o.ok) ==>
                  cells[i] < CELLS && Recognised(cells[i], cckRates, supported)
  }

  // What one frame tells the station about its cells.
  ghost predicate Told(rc: seq<RateCtrl>, cells: seq<nat>, o: Outcome, cckRates: seq<nat>, supported: Masks,
                       was: seq<Stats>, now: seq<Stats>)
    requires |cckRates| == 4 && Shaped(supported) && |was| == |now| == CELLS && |rc| == 4 && |cells| == 3
  {
    AllRecognised(rc, cells, o, cckRates, supported) ==>
      forall c :: 0 <= c < CELLS && Has(supported, c) ==>
                    && Grew(Counted(was[c]), Counted(now[c]), TriesAs(rc, cells, o, c))
                    && Grew(Succeeded(was[c]), Succeeded(now[c]), AckAs(rc, cells, o, c))
  }

  // What a status says of each cell, the station counts.
  lemma CountedIsTold(rc: seq<RateCtrl>, cells: seq<nat>, o: Outcome, cckRates: seq<nat>, supported: Masks,
                      was: seq<Stats>, now: seq<Stats>)
    requires |cckRates| == 4 && Shaped(supported) && ChainOf(rc, cells, cckRates)
    requires WellFormed(StatusFor(rc, o), cckRates, supported)
    requires CountsReported(StatusFor(rc, o), cckRates, supported, was, now)
    ensures |was| == |now| == CELLS && Told(rc, cells, o, cckRates, supported, was, now)
  {
    assert |rc| == 4 && |cells| == 3;
    hide WellFormed, ChainOf, Recognised, LastEntry, TriesOn, TriesTold, CellReports, Grew, Answer, RetriesOf;
    if AllRecognised(rc, cells, o, cckRates, supported) {
      forall c | 0 <= c < CELLS && Has(supported, c)
        ensures Grew(Counted(was[c]), Counted(now[c]), TriesAs(rc, cells, o, c))
        ensures Grew(Succeeded(was[c]), Succeeded(now[c]), AckAs(rc, cells, o, c))
      {
        CellFeedback(rc, cells, RetriesOf(o.retryCnt), o.ok, o.expired, cckRates, supported, c);
      }
    }
  }

  // Every status so far was of one subframe.
  ghost predicate OneEach(st: Station)
    reads st
  {
    st.avgAmpduLen == SCALE && st.ampduLen == st.ampduPackets
  }

  // The status of a frame is one of one subframe: it fits, and leaves the average at one
  // subframe.
  lemma FrameFits(rc: seq<RateCtrl>, cells: seq<nat>, o: Outcome, cckRates: seq<nat>, supported: Masks, l: Load)
    requires |cckRates| == 4 && Shaped(supported) && ChainOf(rc, cells, cckRates)
    requires l.avg == SCALE && l.len == l.packets && l.packets + 1 < 0x10_0000
    ensures |rc| == 4 && |cells| == 3
    ensures var s := StatusFor(rc, o);
            && WellFormed(s, cckRates, supported) && !Ignored(s) && s.expired == o.expired && LoadFits(s, l)
            && LoadAfter(s, l) == if o.expired then Load(SCALE, 0, 0) else Load(SCALE, l.len + 1, l.packets + 1)
  {
    hide KeepsAverage, NewAvg, WellFormed, Names, Recognised;
    FeedbackReaches(rc, cells, RetriesOf(o.retryCnt), o.ok, o.expired, cckRates, supported);
    OneSubframeIff(l.packets + 1);
    FewSubframesKeep(SCALE, l.len + 1, l.packets + 1);
  }

  // The hardware's entries become a status.
  method ReportFrame(entries: array<RateCtrl>, o: Outcome) returns (s: Status)
    requires entries.Length == 4
    modifies entries
    ensures s == StatusFor(old(entries[..]), o)
  {
    hide Rewritten, StatusOf;
    CompleteTask(entries, o.retryCnt, o.ok);
    s := TxComplete(entries, o.ok, o.expired);
  }

  // The labels of the table after a status: as they were, or those of the rates chosen
  // when it was written.
  ghost predicate Relabelled(st: Station, was: seq<Slot>, l: Labels, l': Labels)
    requires st.NamesOk()
    reads st, st.rates, st.groups, st.maxTp, st.rateTable
  {
    || (st.rateTable[..] == was && l' == l)
    || (st.TableWritten() && l' == Labels(st.maxTp[0], st.maxTp[1], st.maxProb))
  }

  // The completion of a frame, whenever it was sent: the average length stays at one
  // subframe, each supported cell counts exactly the tries made at it, and the table
  // stays labelled.
  method Complete(st: Station, entries: array<RateCtrl>, ghost cells: seq<nat>, o: Outcome, ghost l: Labels)
    returns (ghost l': Labels)
    requires st.Valid() && st.maxRates >= 3 && Labelled(st.rateTable[..], l, st.cckRates)
    requires OneEach(st) && st.ampduPackets + 1 < 0x10_0000
    requires entries.Length == 4 && ChainOf(entries[..], cells, st.cckRates)
    modifies st, st.rates, st.groups, st.maxTp, st.rateTable, entries
    ensures st.Valid() && OneEach(st) && st.ampduPackets == if o.expired then 0 else old(st.ampduPackets) + 1
    ensures Labelled(st.rateTable[..], l', st.cckRates) && Relabelled(st, old(st.rateTable[..]), l, l')
    ensures old(st.TableWritten()) || o.expired ==> st.TableWritten()
    ensures |old(entries[..])| == 4 && |cells| == 3
    ensures Told(old(entries[..]), cells, o, st.cckRates, st.supported, old(st.rates[..]), st.rates[..])
    ensures var refilled := HtSampling.Refilled(old(st.BudgetNow()));
            st.BudgetNow() ==
            if o.expired then refilled.(count := 10 * multiset(Flags(st.supported))[true]) else refilled
  {
    hide Caps, Listed, Names, Recognised, ChainOf, StatusFor, WellFormed, CountsReported, Told, LoadFits, LoadAfter,
         Labelled, HtSampling.Refilled, Flags, Station.StatsOk, Station.AirOk, Station.ListsOk, Station.CursorsOk,
         Station.LoadOk, Station.TableWritten, RetriesOf;
    ghost var was, rc, slots := st.rates[..], entries[..], st.rateTable[..];
    FrameFits(rc, cells, o, st.cckRates, st.supported, LoadOf(st));
    var s := ReportFrame(entries, o);
    TakeOne(st, s);
    CountedIsTold(rc, cells, o, st.cckRates, st.supported, was, st.rates[..]);
    if st.rateTable[..] == slots {
      l' := l;
    } else {
      l' := Labels(st.maxTp[0], st.maxTp[1], st.maxProb);
      WrittenTable(st);
    }
  }

  // A frame from the choice of its rates to the station's reaction. What it tells counts
  // on top of what a dropped sample left of the cells.
  method Serve(st: Station, sig: Signal, o: Outcome, ghost l: Labels)
    returns (sample: Sample, ghost rc: seq<RateCtrl>, ghost l': Labels)
    requires st.Valid() && st.maxRates >= 3 && Labelled(st.rateTable[..], l, st.cckRates)
    requires OneEach(st) && st.ampduPackets + 1 < 0x10_0000
    modifies st, st.rates, st.groups, st.maxTp, st.rateTable
    ensures st.Valid() && OneEach(st) && st.ampduPackets == if o.expired then 0 else old(st.ampduPackets) + 1
    ensures Labelled(st.rateTable[..], l', st.cckRates) && Relabelled(st, old(st.rateTable[..]), l, l')
    ensures old(st.TableWritten()) || o.expired ==> st.TableWritten()
    ensures ChainOf(rc, ChainCells(sample, Fitable(sample, sig), l), st.cckRates) && |rc| == 4
    ensures Told(rc, ChainCells(sample, Fitable(sample, sig), l), o, st.cckRates, st.supported,
                 AfterDrop(sample, sig, st.supported, old(st.rates[..])), st.rates[..])
  {
    hide Caps, Listed, Names, Recognised, ChainOf, ChainCells, Told, Labelled, HtSampling.Asked, HtSampling.Refilled,
         Relabelled, Flags, Station.StatsOk, Station.AirOk, Station.ListsOk, Station.CursorsOk, Station.LoadOk,
         Station.TableWritten, AfterDrop, Fitable;
    var entries;
    entries, sample := FindRate(st, sig, l);
    rc := entries[..];
    l' := Complete(st, entries, ChainCells(sample, Fitable(sample, sig), l), o, l);
  }
}
