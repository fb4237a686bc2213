/** The HT/VHT rate groups: their order, their frame durations, the throughput
    estimate, and the encoding of a rate for the hardware. */
module HtRates {
  import opened FixedPoint

  const MCS_GROUP_RATES: nat := 10
  const CCK_GROUP: nat := 4
  const VHT_GROUP_0: nat := 5
  const GROUPS: nat := 11
  const CELLS: nat := 110

  datatype RateFlags = RateFlags(mcs: bool, vhtMcs: bool, shortGi: bool, width40: bool, width80: bool, useRtsCts: bool)

  function Bit(b: bool): nat {
    if b then 1 else 0
  }

  // Groups are ordered by bandwidth, then guard interval, then number of streams.
  function GroupIdx(streams: nat, sgi: bool, ht40: bool): nat
    requires streams > 0
  {
    2 * Bit(ht40) + Bit(sgi) + streams - 1
  }

  function VhtGroupIdx(streams: nat, sgi: bool, bw: nat): nat
    requires streams > 0
  {
    VHT_GROUP_0 + 2 * bw + Bit(sgi) + streams - 1
  }

  function Streams(group: nat): nat {
    if group == CCK_GROUP then 0 else 1
  }

  function GroupFlags(group: nat): RateFlags
    requires group < GROUPS
  {
    if group < CCK_GROUP then RateFlags(true, false, group % 2 == 1, group >= 2, false, false)
    else if group == CCK_GROUP then RateFlags(false, false, false, false, false, false)
    else
      var v := group - VHT_GROUP_0;
      RateFlags(false, true, v % 2 == 1, v / 2 == 1, v / 2 == 2, false)
  }

  // 20, 40 or 80 MHz.
  function Bandwidth(flags: RateFlags): nat {
    if flags.width80 then 2 else if flags.width40 then 1 else 0
  }

  // The groups by number: four HT groups, CCK, six VHT groups, each pair with the long
  // guard interval first.
  lemma GroupsInOrder(group: nat)
    requires group < GROUPS
    ensures var f := GroupFlags(group);
            && (f.mcs <==> group <= 3) && (f.vhtMcs <==> group >= 5) && !f.useRtsCts
            && (f.shortGi <==> group in {1, 3, 6, 8, 10})
            && Bandwidth(f) == if group in {9, 10} then 2 else if group in {2, 3, 7, 8} then 1 else 0
  {
  }

  // ----- Durations -----

  const BPS_20: seq<nat> := [26, 52, 78, 104, 156, 208, 234, 260, 312, 346]
  const BPS_40: seq<nat> := [54, 108, 162, 216, 324, 432, 486, 540, 648, 720]
  const BPS_80: seq<nat> := [117, 234, 351, 468, 702, 936, 1053, 1170, 1404, 1560]
  const MCS_NBITS: nat := 24000 * 16 * 8
  const CCK_RATES: seq<nat> := [10, 20, 55, 110]

  function Bps(group: nat, rate: nat): (b: nat)
    requires group < GROUPS && group != CCK_GROUP && rate < MCS_GROUP_RATES
    ensures 0 < b <= 1560
  {
    var flags := GroupFlags(group);
    if flags.width80 then BPS_80[rate] else if flags.width40 then BPS_40[rate] else BPS_20[rate]
  }

  // In nanoseconds, for one subframe of an average aggregate.
  function McsDuration(sgi: bool, bps: nat): nat
    requires bps > 0
  {
    var syms := (MCS_NBITS + bps - 1) / bps;
    (if sgi then (syms * 18000 + 4000) / 5 else syms * 4000) / 16
  }

  function CckDuration(bitrate: nat, short: bool, len: nat): nat
    requires bitrate > 0
  {
    1000 * (10 + (if short then 72 + 24 else 144 + 48) + 8 * (len + 4) * 10 / bitrate)
  }

  function CckAckDuration(bitrate: nat, short: bool): nat
    requires bitrate > 0
  {
    CckDuration(if bitrate > 10 then 20 else 10, false, 60) + CckDuration(bitrate, short, 24000)
  }

  // The table entries that the group initialisers fill in; the others are zero.
  predicate Listed(group: nat, rate: nat) {
    rate < MCS_GROUP_RATES && (group <= CCK_GROUP ==> rate < 8)
  }

  function Duration(group: nat, rate: nat): nat
    requires group < GROUPS && rate < MCS_GROUP_RATES
  {
    if !Listed(group, rate) then 0
    else if group == CCK_GROUP then CckAckDuration(CCK_RATES[rate % 4], rate >= 4)
    else McsDuration(GroupFlags(group).shortGi, Bps(group, rate))
  }

  // Every listed rate takes at least 0.4 milliseconds per average subframe.
  lemma DurationBound(group: nat, rate: nat)
    requires group < GROUPS && rate < MCS_GROUP_RATES
    ensures Listed(group, rate) ==> Duration(group, rate) >= 400_000
    ensures !Listed(group, rate) ==> Duration(group, rate) == 0
  {
    if Listed(group, rate) {
      if group == CCK_GROUP {
        var bitrate := CCK_RATES[rate % 4];
        DivisionBound(8 * 24004 * 10, bitrate, 17000);
      } else {
        var bps := Bps(group, rate);
        DivisionBound(MCS_NBITS + bps - 1, bps, 1969);
      }
    }
  }

  // Data carriers, bits per carrier and coding rate make the bits of a symbol, as the
  // modulation and coding schemes of IEEE 802.11 define them.
  function CarrierBits(rate: nat): (b: nat)
    requires rate < MCS_GROUP_RATES
  {
    if rate == 0 then 1 else if rate <= 2 then 2 else if rate <= 4 then 4 else if rate <= 7 then 6 else 8
  }

  lemma BitsPerSymbol(group: nat, rate: nat)
    requires group < GROUPS && group != CCK_GROUP && rate < MCS_GROUP_RATES
    ensures var width := Bandwidth(GroupFlags(group));
            var carried := (if width == 2 then 234 else if width == 1 then 108 else 52) * CarrierBits(rate);
            Bps(group, rate) == if rate in {0, 1, 3} then carried / 2 else if rate == 5 then 2 * carried / 3
              else if rate in {7, 9} then 5 * carried / 6 else 3 * carried / 4
  {
  }

  // A listed MCS rate needs as many symbols as the 24000 bytes of 16 subframes take, of
  // 4 microseconds each, or of 3.6 and 0.8 more with the short guard interval. Its
  // duration is a sixteenth of that.
  lemma SymbolTime(group: nat, rate: nat) returns (symbols: nat)
    requires group < GROUPS && group != CCK_GROUP && Listed(group, rate)
    ensures symbols * Bps(group, rate) >= 8 * 16 * 24000 > (symbols - 1) * Bps(group, rate)
    ensures var d := Duration(group, rate);
            if GroupFlags(group).shortGi then 80 * d <= 18000 * symbols + 4000 < 80 * (d + 1)
            else 16 * d <= 4000 * symbols < 16 * (d + 1)
  {
    var bps := Bps(group, rate);
    symbols := (MCS_NBITS + bps - 1) / bps;
    QuotientFits(MCS_NBITS + bps - 1, bps);
    assert (symbols - 1) * bps == symbols * bps - bps;
    assert bps * (symbols + 1) == symbols * bps + bps;
  }

  lemma CckDurations(rate: nat)
    requires rate < 8
    ensures Duration(CCK_GROUP, rate) ==
            [192_948_000, 96_676_000, 35_574_000, 18_117_000, 192_852_000, 96_580_000, 35_478_000, 18_021_000][rate]
  {
  }

  // Within the MCS and VHT groups a higher index, a wider channel and a shorter guard
  // interval never make a frame longer.
  lemma DurationOrder(slow: nat, fast: nat, i: nat, j: nat)
    requires slow < GROUPS && fast < GROUPS && slow != CCK_GROUP && fast != CCK_GROUP && i <= j
    requires Listed(slow, i) && Listed(fast, j)
    requires Bandwidth(GroupFlags(slow)) <= Bandwidth(GroupFlags(fast))
    requires GroupFlags(slow).shortGi ==> GroupFlags(fast).shortGi
    ensures Duration(fast, j) <= Duration(slow, i)
  {
    hide Duration, Bps;
    var b, c := Bps(slow, i), Bps(fast, j);
    var many := SymbolTime(slow, i);
    var few := SymbolTime(fast, j);
    MoreBits(slow, fast, i, j);
    FewerSymbols(b, c, many, few);
    hide *;
  }

  lemma MoreBits(slow: nat, fast: nat, i: nat, j: nat)
    requires slow < GROUPS && fast < GROUPS && slow != CCK_GROUP && fast != CCK_GROUP
    requires i <= j < MCS_GROUP_RATES && Bandwidth(GroupFlags(slow)) <= Bandwidth(GroupFlags(fast))
    ensures Bps(slow, i) <= Bps(fast, j)
  {
  }

  lemma FewerSymbols(b: nat, c: nat, many: nat, few: nat)
    requires 0 < b <= c <= 1560 && many * b >= MCS_NBITS > (few - 1) * c
    ensures 10 <= many && few <= many
  {
    if few > many {
      ScaleUp(b, many, few - 1);
      ScaleUp(few - 1, b, c);
      assert false;
    }
    if many < 10 {
      ScaleUp(b, many, 10);
      assert false;
    }
  }

  // ieee80211_frame_duration of an OFDM frame, in microseconds; rate is in 100 kbit/s.
  function OfdmDuration(len: nat, rate: nat): nat
    requires rate > 0
  {
    16 + 16 + 4 + 4 * (((16 + 8 * (len + 4) + 6) * 10 + 4 * rate - 1) / (4 * rate))
  }

  // The frames behind the overheads: an empty frame and an acknowledgement.
  lemma OverheadFrames()
    ensures OfdmDuration(0, 60) == 48 && OfdmDuration(10, 60) == 60
  {
  }

  // ----- Throughput -----

  // What the estimate depends on besides the rate: the per-frame overhead in
  // microseconds and the average aggregate length, scaled by 4096.
  datatype Airtime = Airtime(overhead: nat, avgAmpduLen: nat)

  // No divisor is zero and a thousand overheads fit an unsigned 32-bit integer.
  predicate Usable(a: Airtime) {
    a.avgAmpduLen >= SCALE && 1000 * a.overhead < TWO32
  }

  function Nsecs(a: Airtime, group: nat, rate: nat): (ns: nat)
    requires Usable(a) && group < GROUPS && rate < MCS_GROUP_RATES
    ensures Listed(group, rate) ==> ns >= 400_000
  {
    hide Duration;
    DurationBound(group, rate);
    (if group != CCK_GROUP then Wrap32(1000 * a.overhead) / Trunc(a.avgAmpduLen) else 0) + Duration(group, rate)
  }

  // The last step of the estimate in unsigned 32-bit arithmetic.
  function PerSecond(prob: nat, nsecs: nat): nat
    requires nsecs > 0
  {
    Trunc(Wrap32(100 * (Wrap32(prob * 1_000_000) / nsecs)))
  }

  // minstrel_ht_get_tp_avg. Rates that are not listed never have a probability.
  function TpAvg(a: Airtime, group: nat, rate: nat, prob: nat): nat
    requires Usable(a) && group < GROUPS && rate < MCS_GROUP_RATES
    requires Listed(group, rate) || prob == 0
  {
    hide Nsecs;
    if prob < Percent(10) then 0
    else if prob > Percent(90) then PerSecond(Percent(90), Nsecs(a, group, rate))
    else PerSecond(prob, Nsecs(a, group, rate))
  }

  lemma NoWrap(x: nat, q: nat)
    requires x <= 3_686_000_000 && q <= 3_686_000_000 / 400_000
    ensures Wrap32(x) == x && Wrap32(100 * q) == 100 * q && Trunc(100 * q) <= 224
  {
  }

  // Up to certainty no step of the estimate wraps.
  lemma PerSecondExact(prob: nat, nsecs: nat)
    requires prob <= Percent(90) && nsecs >= 400_000
    ensures PerSecond(prob, nsecs) == Trunc(100 * (prob * 1_000_000 / nsecs)) <= 224
  {
    var x := prob * 1_000_000;
    DivideMonotone(x, 3_686_000_000, 400_000, nsecs);
    NoWrap(x, x / nsecs);
  }

  lemma PerSecondMonotone(prob: nat, more: nat, fast: nat, slow: nat)
    requires prob <= more <= Percent(90) && 400_000 <= fast <= slow
    ensures PerSecond(prob, slow) <= PerSecond(more, fast) <= 224
  {
    hide PerSecond;
    PerSecondExact(prob, slow);
    PerSecondExact(more, fast);
    DivideMonotone(prob * 1_000_000, more * 1_000_000, fast, slow);
  }

  // The estimate for each certainty below the cap, above it and for a failing rate.
  lemma CappedEstimate(a: Airtime, group: nat, rate: nat, prob: nat)
    requires Usable(a) && group < GROUPS && Listed(group, rate) && prob <= SCALE
    ensures Nsecs(a, group, rate) >= 400_000
    ensures TpAvg(a, group, rate, prob) <= 224
    ensures TpAvg(a, group, rate, prob) ==
            if prob < 409 then 0
            else 100 * ((if prob > 3686 then 3686 else prob) * 1_000_000 / Nsecs(a, group, rate)) / SCALE
  {
    hide PerSecond, Nsecs;
    PerSecondExact(if prob > Percent(90) then Percent(90) else prob, Nsecs(a, group, rate));
  }

  // What each of n parts has to bear of a whole, rounded down.
  predicate Shared(n: nat, share: int, whole: nat) {
    0 <= share && n * share <= whole < n * (share + 1)
  }

  // The overhead that one subframe pays.
  lemma OverheadShare(a: Airtime)
    requires Usable(a)
    ensures Trunc(a.avgAmpduLen) == a.avgAmpduLen / SCALE >= 1
    ensures Shared(a.avgAmpduLen / SCALE, Wrap32(1000 * a.overhead) / Trunc(a.avgAmpduLen), 1000 * a.overhead)
  {
    WholeSubframes(a.avgAmpduLen);
    FitsUnwrapped(1000 * a.overhead);
    ShareOut(1000 * a.overhead, Trunc(a.avgAmpduLen));
    assert Trunc(a.avgAmpduLen) == a.avgAmpduLen / SCALE;
    hide *;
  }

  lemma ShareOut(whole: nat, n: nat)
    requires n > 0
    ensures Shared(n, whole / n, whole)
  {
    QuotientFits(whole, n);
  }

  // What the estimate is, exactly: nothing below 10%, and from there the frames that
  // succeed in a tenth of a second, scaled, with certainty capped at 90%. A CCK frame
  // takes its duration; any other one takes its share of the overhead of an aggregate of
  // n whole subframes besides.
  lemma EstimateIs(a: Airtime, group: nat, rate: nat, prob: nat) returns (t: nat)
    requires Usable(a) && group < GROUPS && Listed(group, rate) && prob <= SCALE
    ensures if group == CCK_GROUP then t == Duration(group, rate)
            else
              var n, share := a.avgAmpduLen / SCALE, t - Duration(group, rate);
              0 <= share && n * share <= 1000 * a.overhead < n * (share + 1)
    ensures t >= 400_000
    ensures TpAvg(a, group, rate, prob) ==
            if prob < 409 then 0 else 100 * ((if prob > 3686 then 3686 else prob) * 1_000_000 / t) / SCALE
  {
    t := Nsecs(a, group, rate);
    NsecsIs(a, group, rate);
    CappedEstimate(a, group, rate, prob);
    assert group != CCK_GROUP ==> Shared(a.avgAmpduLen / SCALE, t - Duration(group, rate), 1000 * a.overhead);
    hide *;
  }

  lemma NsecsIs(a: Airtime, group: nat, rate: nat)
    requires Usable(a) && group < GROUPS && rate < MCS_GROUP_RATES
    ensures var t := Nsecs(a, group, rate);
            if group == CCK_GROUP then t == Duration(group, rate)
            else Shared(a.avgAmpduLen / SCALE, t - Duration(group, rate), 1000 * a.overhead)
  {
    OverheadShare(a);
    hide Duration, Wrap32, Trunc, Shared;
  }

  // A CCK frame pays no overhead.
  lemma CckPaysNothing(a: Airtime, b: Airtime, rate: nat, prob: nat)
    requires Usable(a) && Usable(b) && Listed(CCK_GROUP, rate) && prob <= SCALE
    ensures TpAvg(a, CCK_GROUP, rate, prob) == TpAvg(b, CCK_GROUP, rate, prob)
  {
    hide Duration;
  }

  // The estimate never wraps 32 bits. It grows with the probability of the rate, and
  // shrinks with the duration of its frames and with the overhead; longer aggregates
  // make it grow.
  lemma TpAvgMonotone(a: Airtime, b: Airtime, group: nat, rate: nat, other: nat, slower: nat, prob: nat, more: nat)
    requires Usable(a) && Usable(b) && group < GROUPS && other < GROUPS
    requires Listed(group, rate) && Listed(other, slower) && Duration(group, rate) <= Duration(other, slower)
    requires a.overhead <= b.overhead && b.avgAmpduLen <= a.avgAmpduLen
    requires other == CCK_GROUP ==> group == CCK_GROUP
    requires prob <= more <= SCALE
    ensures TpAvg(b, other, slower, prob) <= TpAvg(a, group, rate, more) <= 224
  {
    NsecsMonotone(a, b, group, rate, other, slower);
    hide PerSecond, Nsecs, Trunc, Duration;
    var fast, slow := Nsecs(a, group, rate), Nsecs(b, other, slower);
    var p := if prob > Percent(90) then Percent(90) else prob;
    var m := if more > Percent(90) then Percent(90) else more;
    PerSecondMonotone(p, m, fast, slow);
  }

  lemma NsecsMonotone(a: Airtime, b: Airtime, group: nat, rate: nat, other: nat, slower: nat)
    requires Usable(a) && Usable(b) && group < GROUPS && other < GROUPS
    requires Listed(group, rate) && Listed(other, slower) && Duration(group, rate) <= Duration(other, slower)
    requires a.overhead <= b.overhead && b.avgAmpduLen <= a.avgAmpduLen
    requires other == CCK_GROUP ==> group == CCK_GROUP
    ensures Nsecs(a, group, rate) <= Nsecs(b, other, slower)
  {
    hide Duration, Wrap32, Trunc;
    ShareMonotone(a, b);
  }

  lemma WholeSubframes(avg: nat)
    requires avg >= SCALE
    ensures Trunc(avg) >= 1
  {
  }

  lemma WholeMonotone(avg: nat, longer: nat)
    requires avg <= longer
    ensures Trunc(avg) <= Trunc(longer)
  {
  }

  lemma FitsUnwrapped(x: nat)
    requires x < TWO32
    ensures Wrap32(x) == x
  {
  }

  lemma ShareMonotone(a: Airtime, b: Airtime)
    requires Usable(a) && Usable(b) && a.overhead <= b.overhead && b.avgAmpduLen <= a.avgAmpduLen
    ensures 0 < Trunc(b.avgAmpduLen) <= Trunc(a.avgAmpduLen)
    ensures Wrap32(1000 * a.overhead) / Trunc(a.avgAmpduLen) <= Wrap32(1000 * b.overhead) / Trunc(b.avgAmpduLen)
  {
    WholeSubframes(b.avgAmpduLen);
    WholeMonotone(b.avgAmpduLen, a.avgAmpduLen);
    FitsUnwrapped(1000 * a.overhead);
    FitsUnwrapped(1000 * b.overhead);
    hide Trunc, Wrap32;
    DivideMonotone(1000 * a.overhead, 1000 * b.overhead, Trunc(b.avgAmpduLen), Trunc(a.avgAmpduLen));
  }

  // ----- The hardware encoding -----

  datatype TxRate = TxRate(idx: int, flags: RateFlags, count: nat)

  // The index that minstrel_ht_set_rate writes for a rate of a group.
  function EncodeIdx(group: nat, rate: nat, cckRates: seq<nat>): nat
    requires group < GROUPS && rate < MCS_GROUP_RATES && |cckRates| == 4
  {
    if group == CCK_GROUP then cckRates[(group * MCS_GROUP_RATES + rate) % 4]
    else if GroupFlags(group).vhtMcs then (Streams(group) - 1) * 16 + rate % 16
    else rate + (Streams(group) - 1) * 8
  }

  function CckPosition(cckRates: seq<nat>, idx: int, from: nat): (j: nat)
    requires from <= |cckRates|
    ensures from <= j <= |cckRates|
    ensures forall k :: from <= k < j ==> cckRates[k] != idx
    ensures j < |cckRates| ==> cckRates[j] == idx
    decreases |cckRates| - from
  {
    if from == |cckRates| || cckRates[from] == idx then from else CckPosition(cckRates, idx, from + 1)
  }

  // The cell that minstrel_ht_get_stats credits for a reported rate.
  function DecodeGroup(r: TxRate): nat
    requires r.flags.mcs || r.flags.vhtMcs ==> r.idx >= 0
  {
    if r.flags.mcs then GroupIdx(r.idx / 8 + 1, r.flags.shortGi, r.flags.width40)
    else if r.flags.vhtMcs then
      VhtGroupIdx(r.idx / 16 + 1, r.flags.shortGi, Bit(r.flags.width40) + 2 * Bit(r.flags.width80))
    else CCK_GROUP
  }

  function DecodeRate(r: TxRate, cckRates: seq<nat>, cckMask: seq<bool>): nat
    requires r.flags.mcs || r.flags.vhtMcs ==> r.idx >= 0
    requires |cckRates| == 4 && |cckMask| == MCS_GROUP_RATES
  {
    if r.flags.mcs then r.idx % 8
    else if r.flags.vhtMcs then r.idx % 16
    else
      var j := CckPosition(cckRates, r.idx, 0);
      if cckMask[j] then j else j + 4
  }

  lemma HtRoundTrip(group: nat, rate: nat)
    requires group < CCK_GROUP && rate < MCS_GROUP_RATES
    ensures var f := GroupFlags(group);
            f.mcs && (GroupIdx(rate / 8 + 1, f.shortGi, f.width40) == group && rate % 8 == rate <==> rate < 8)
  {
    assert group in {0, 1, 2, 3};
  }

  lemma VhtRoundTrip(group: nat, rate: nat)
    requires CCK_GROUP < group < GROUPS && rate < MCS_GROUP_RATES
    ensures var f := GroupFlags(group);
            && !f.mcs && f.vhtMcs
            && VhtGroupIdx(rate / 16 + 1, f.shortGi, Bit(f.width40) + 2 * Bit(f.width80)) == group
            && rate % 16 == rate
  {
    assert group in {5, 6, 7, 8, 9, 10};
  }

  lemma CckRoundTrip(rate: nat, cckRates: seq<nat>, cckMask: seq<bool>)
    requires rate < MCS_GROUP_RATES && |cckRates| == 4 && |cckMask| == MCS_GROUP_RATES
    ensures var p := rate % 4;
            var j := CckPosition(cckRates, cckRates[p], 0);
            (if cckMask[j] then j else j + 4) == rate
            <==>
            rate < 8 && (forall k :: 0 <= k < p ==> cckRates[k] != cckRates[p]) && cckMask[p] == (rate < 4)
  {
    var p := rate % 4;
    var j := CckPosition(cckRates, cckRates[p], 0);
    assert j <= p;
    assert cckRates[j] == cckRates[p];
  }

  // Feedback reaches the rate that was chosen exactly for the rates that the group
  // lists, and for CCK exactly when the rate's index is not shared with an earlier
  // rate and the long-preamble bit says which of the two cells is meant.
  lemma RoundTrip(group: nat, rate: nat, cckRates: seq<nat>, cckMask: seq<bool>, rtsCts: bool, count: nat)
    requires group < GROUPS && rate < MCS_GROUP_RATES && |cckRates| == 4 && |cckMask| == MCS_GROUP_RATES
    ensures var r := TxRate(EncodeIdx(group, rate, cckRates), GroupFlags(group).(useRtsCts := rtsCts), count);
            DecodeGroup(r) == group && DecodeRate(r, cckRates, cckMask) == rate
            <==>
            Listed(group, rate) &&
            (group == CCK_GROUP ==>
               && (forall k :: 0 <= k < rate % 4 ==> cckRates[k] != cckRates[rate % 4])
               && cckMask[rate % 4] == (rate < 4))
  {
    hide CckPosition;
    if group < CCK_GROUP {
      HtRoundTrip(group, rate);
    } else if group > CCK_GROUP {
      VhtRoundTrip(group, rate);
    } else {
      CckRoundTrip(rate, cckRates, cckMask);
    }
  }
}
