/** The life of an HT station under the driver, from its association on: frames are sent
    and completed in any order, and many may be under way at once. */
module DriverRun {
  import opened FixedPoint
  import opened RateStats
  import opened HtRates
  import opened HtModel
  import opened HtFeedback
  import opened HtStation
  import opened Driver
  import HtSampling
  import Retransmit
  import SampleCursor
  import SampleTable

  // A frame is sent, with what the signal allows at that moment, or a frame that was
  // sent before is completed. Frames are numbered in the order they are sent.
  datatype Event = Send(sig: Signal) | Done(frame: nat, outcome: Outcome)

  function Sends(es: seq<Event>): nat
    decreases |es|
  {
    if es == [] then 0 else Sends(es[..|es| - 1]) + if es[|es| - 1].Send? then 1 else 0
  }

  // The frames completed since the last recomputation, n of them before the run.
  function InInterval(es: seq<Event>, n: nat): nat
    decreases |es|
  {
    if es == [] then n
    else
      var before := InInterval(es[..|es| - 1], n);
      match es[|es| - 1]
      case Send(_) => before
      case Done(_, o) => if o.expired then 0 else before + 1
  }

  // Every frame is sent before it is completed, and is completed once; no interval holds
  // 2^20 completions.
  predicate Playable(es: seq<Event>, n: nat) {
    forall i :: 0 <= i < |es| && es[i].Done? ==>
                  && es[i].frame < Sends(es[..i])
                  && (forall j :: 0 <= j < i && es[j].Done? ==> es[j].frame != es[i].frame)
                  && InInterval(es[..i], n) + 1 < 0x10_0000
  }

  predicate Renewed(es: seq<Event>) {
    exists i :: 0 <= i < |es| && es[i].Done? && es[i].outcome.expired
  }

  // How a frame went out: the sample that was drawn for it, its entries and the cells
  // they name, and the cells whose statistics were cleared because the sample was too
  // fast for the signal.
  datatype Sent = Sent(sample: Sample, rc: seq<RateCtrl>, cells: seq<nat>, cleared: set<nat>)

  predicate Recorded(es: seq<Event>, sent: seq<Sent>) {
    && Sends(es) <= |sent|
    && (forall j :: 0 <= j < |sent| ==> |sent[j].rc| == 4 && |sent[j].cells| == 3)
    && (forall i :: 0 <= i < |es| && es[i].Done? ==> es[i].frame < |sent|)
  }

  // The tries that were reported for cell c since it was last cleared.
  function TriedSince(es: seq<Event>, sent: seq<Sent>, c: nat): nat
    requires Recorded(es, sent)
    decreases |es|
  {
    if es == [] then 0
    else
      var before := TriedSince(es[..|es| - 1], sent, c);
      match es[|es| - 1]
      case Send(_) => if c in sent[Sends(es) - 1].cleared then 0 else before
      case Done(f, o) => before + TriesAs(sent[f].rc, sent[f].cells, o, c)
  }

  function AckedSince(es: seq<Event>, sent: seq<Sent>, c: nat): nat
    requires Recorded(es, sent)
    decreases |es|
  {
    if es == [] then 0
    else
      var before := AckedSince(es[..|es| - 1], sent, c);
      match es[|es| - 1]
      case Send(_) => if c in sent[Sends(es) - 1].cleared then 0 else before
      case Done(f, o) => before + AckAs(sent[f].rc, sent[f].cells, o, c)
  }

  // Whether cell c was cleared during the run.
  predicate WasCleared(es: seq<Event>, sent: seq<Sent>, c: nat)
    requires Recorded(es, sent)
  {
    exists j :: 0 <= j < Sends(es) && c in sent[j].cleared
  }

  predicate RunRecognised(es: seq<Event>, sent: seq<Sent>, cckRates: seq<nat>, supported: Masks)
    requires Recorded(es, sent) && |cckRates| == 4 && Shaped(supported)
  {
    forall i :: 0 <= i < |es| && es[i].Done? ==>
                  AllRecognised(sent[es[i].frame].rc, sent[es[i].frame].cells, es[i].outcome, cckRates, supported)
  }

  // What a cell has counted: since the run began, or since it was last cleared, which
  // leaves a single failed attempt.
  ghost predicate CellKept(es: seq<Event>, sent: seq<Sent>, c: nat, was: Stats, now: Stats)
    requires Recorded(es, sent)
  {
    var cleared := WasCleared(es, sent, c);
    && Grew(if cleared then 1 else Counted(was), Counted(now), TriedSince(es, sent, c))
    && Grew(if cleared then 0 else Succeeded(was), Succeeded(now), AckedSince(es, sent, c))
  }

  ghost predicate RunKept(es: seq<Event>, sent: seq<Sent>, cckRates: seq<nat>, supported: Masks,
                          was: seq<Stats>, now: seq<Stats>)
    requires Recorded(es, sent) && |cckRates| == 4 && Shaped(supported) && |was| == |now| == CELLS
  {
    RunRecognised(es, sent, cckRates, supported) ==>
      forall c :: 0 <= c < CELLS && Has(supported, c) ==> CellKept(es, sent, c, was[c], now[c])
  }

  lemma Last(es: seq<Event>, e: Event)
    ensures (es + [e])[..|es|] == es && (es + [e])[|es|] == e
    ensures Sends(es + [e]) == Sends(es) + if e.Send? then 1 else 0
  {
  }

  // What is recorded later does not matter to what happened before.
  lemma {:induction false} LaterSent(es: seq<Event>, sent: seq<Sent>, s: Sent, c: nat)
    requires Recorded(es, sent) && |s.rc| == 4 && |s.cells| == 3
    ensures Recorded(es, sent + [s])
    ensures TriedSince(es, sent + [s], c) == TriedSince(es, sent, c)
    ensures AckedSince(es, sent + [s], c) == AckedSince(es, sent, c)
    decreases |es|
  {
    hide TriesAs, AckAs;
    if es != [] {
      LaterSent(es[..|es| - 1], sent, s, c);
    }
  }

  lemma SentCell(es: seq<Event>, sent: seq<Sent>, sig: Signal, s: Sent, c: nat, was: Stats, mid: Stats, now: Stats)
    requires Recorded(es, sent) && Sends(es) == |sent| && |s.rc| == 4 && |s.cells| == 3
    requires CellKept(es, sent, c, was, mid)
    requires if c in s.cleared then Counted(now) == 1 && Succeeded(now) == 0 else now == mid
    ensures Recorded(es + [Send(sig)], sent + [s])
    ensures CellKept(es + [Send(sig)], sent + [s], c, was, now)
  {
    hide Counted, Succeeded, TriesAs, AckAs;
    var es', sent' := es + [Send(sig)], sent + [s];
    Last(es, Send(sig));
    LaterSent(es, sent, s, c);
    assert forall j :: 0 <= j < |sent| ==> sent'[j] == sent[j];
    assert sent'[|sent|] == s;
    assert WasCleared(es', sent', c) <==> WasCleared(es, sent, c) || c in s.cleared;
  }

  lemma DoneCell(es: seq<Event>, sent: seq<Sent>, f: nat, o: Outcome, c: nat, was: Stats, mid: Stats, now: Stats)
    requires Recorded(es, sent) && f < |sent| && CellKept(es, sent, c, was, mid)
    requires Grew(Counted(mid), Counted(now), TriesAs(sent[f].rc, sent[f].cells, o, c))
    requires Grew(Succeeded(mid), Succeeded(now), AckAs(sent[f].rc, sent[f].cells, o, c))
    ensures Recorded(es + [Done(f, o)], sent)
    ensures CellKept(es + [Done(f, o)], sent, c, was, now)
  {
    hide Counted, Succeeded, TriesAs, AckAs, Grew;
    Last(es, Done(f, o));
    var cleared := WasCleared(es, sent, c);
    GrewTwice(if cleared then 1 else Counted(was), Counted(mid), Counted(now),
              TriedSince(es, sent, c), TriesAs(sent[f].rc, sent[f].cells, o, c));
    GrewTwice(if cleared then 0 else Succeeded(was), Succeeded(mid), Succeeded(now),
              AckedSince(es, sent, c), AckAs(sent[f].rc, sent[f].cells, o, c));
  }

  // The cells that sending a frame clears.
  function ClearedBy(sample: Sample, sig: Signal, supported: Masks, was: seq<Stats>): set<nat>
    requires Shaped(supported) && |was| == CELLS
  {
    set c: nat | c < CELLS && Hopeless(sample, sig) && Has(supported, c)
                 && c % MCS_GROUP_RATES >= sig.maxRate + 2 && was[c].succHist > 0
  }

  lemma RecognisedBefore(es: seq<Event>, sent: seq<Sent>, e: Event, more: seq<Sent>, cckRates: seq<nat>,
      supported: Masks)
    requires Recorded(es, sent) && Recorded(es + [e], sent + more) && |cckRates| == 4 && Shaped(supported)
    requires RunRecognised(es + [e], sent + more, cckRates, supported)
    ensures RunRecognised(es, sent, cckRates, supported)
    ensures e.Done? && more == [] ==>
              AllRecognised(sent[e.frame].rc, sent[e.frame].cells, e.outcome, cckRates, supported)
  {
    hide AllRecognised;
    var es', sent' := es + [e], sent + more;
    forall i | 0 <= i < |es| && es[i].Done?
      ensures AllRecognised(sent[es[i].frame].rc, sent[es[i].frame].cells, es[i].outcome, cckRates, supported)
    {
      assert es'[i] == es[i] && sent'[es[i].frame] == sent[es[i].frame];
    }
    assert es'[|es|] == e && sent + [] == sent;
  }

  lemma KeptSend(es: seq<Event>, sent: seq<Sent>, sig: Signal, s: Sent, cckRates: seq<nat>, supported: Masks,
                 was: seq<Stats>, mid: seq<Stats>, now: seq<Stats>)
    requires Recorded(es, sent) && Sends(es) == |sent| && |s.rc| == 4 && |s.cells| == 3
    requires |cckRates| == 4 && Shaped(supported) && |was| == |mid| == CELLS
    requires RunKept(es, sent, cckRates, supported, was, mid)
    requires now == AfterDrop(s.sample, sig, supported, mid) && s.cleared == ClearedBy(s.sample, sig, supported, mid)
    ensures Recorded(es + [Send(sig)], sent + [s]) && Sends(es + [Send(sig)]) == |sent + [s]|
    ensures RunKept(es + [Send(sig)], sent + [s], cckRates, supported, was, now)
  {
    hide CellKept, Hopeless, Counted, Succeeded, RunRecognised, AfterDrop, Has;
    Last(es, Send(sig));
    LaterSent(es, sent, s, 0);
    if RunRecognised(es + [Send(sig)], sent + [s], cckRates, supported) {
      RecognisedBefore(es, sent, Send(sig), [s], cckRates, supported);
      forall c | 0 <= c < CELLS && Has(supported, c)
        ensures CellKept(es + [Send(sig)], sent + [s], c, was[c], now[c])
      {
        DropClears(s.sample, sig, supported, mid, c);
        SentCell(es, sent, sig, s, c, was[c], mid[c], now[c]);
      }
    }
  }

  lemma KeptDone(es: seq<Event>, sent: seq<Sent>, f: nat, o: Outcome, cckRates: seq<nat>, supported: Masks,
                 was: seq<Stats>, mid: seq<Stats>, now: seq<Stats>)
    requires Recorded(es, sent) && f < |sent|
    requires |cckRates| == 4 && Shaped(supported) && |was| == |mid| == |now| == CELLS
    requires RunKept(es, sent, cckRates, supported, was, mid)
    requires Told(sent[f].rc, sent[f].cells, o, cckRates, supported, mid, now)
    ensures Recorded(es + [Done(f, o)], sent) && Sends(es + [Done(f, o)]) == Sends(es)
    ensures RunKept(es + [Done(f, o)], sent, cckRates, supported, was, now)
  {
    hide CellKept, Counted, Succeeded, RunRecognised, AllRecognised, Grew, Has;
    Last(es, Done(f, o));
    assert sent + [] == sent;
    if RunRecognised(es + [Done(f, o)], sent, cckRates, supported) {
      RecognisedBefore(es, sent, Done(f, o), [], cckRates, supported);
      forall c | 0 <= c < CELLS && Has(supported, c)
        ensures CellKept(es + [Done(f, o)], sent, c, was[c], now[c])
      {
        DoneCell(es, sent, f, o, c, was[c], mid[c], now[c]);
      }
    }
  }

  // ----- The samples of an interval -----

  // The frames with a sample, dropped or not, since the last recomputation; n before.
  function SampledIn(es: seq<Event>, sent: seq<Sent>, n: nat): nat
    requires Recorded(es, sent)
    decreases |es|
  {
    if es == [] then n
    else
      var before := SampledIn(es[..|es| - 1], sent, n);
      match es[|es| - 1]
      case Send(_) => before + if sent[Sends(es) - 1].sample.Sampled? then 1 else 0
      case Done(_, o) => if o.expired then 0 else before
  }

  // What was sampled and what the budget still allows come to four leftover tries and
  // twenty more for each group with rates.
  predicate InBudget(b: HtSampling.Budget, sampled: nat, groups: nat) {
    b.tries <= 4 && sampled + b.tries + 2 * b.count <= 4 + 20 * groups
  }

  lemma {:induction false} LaterSampled(es: seq<Event>, sent: seq<Sent>, s: Sent, n: nat)
    requires Recorded(es, sent) && |s.rc| == 4 && |s.cells| == 3
    ensures Recorded(es, sent + [s]) && SampledIn(es, sent + [s], n) == SampledIn(es, sent, n)
    decreases |es|
  {
    if es != [] {
      LaterSampled(es[..|es| - 1], sent, s, n);
    }
  }

  lemma BudgetSend(es: seq<Event>, sent: seq<Sent>, sig: Signal, s: Sent, n: nat, b: HtSampling.Budget, groups: nat)
    requires Recorded(es, sent) && Sends(es) == |sent| && |s.rc| == 4 && |s.cells| == 3
    requires Recorded(es + [Send(sig)], sent + [s])
    requires InBudget(b, SampledIn(es, sent, n), groups)
    requires s.sample.Sampled? ==> HtSampling.Issues(b, true)
    ensures InBudget(HtSampling.Asked(b, s.sample.Sampled?), SampledIn(es + [Send(sig)], sent + [s], n), groups)
  {
    Last(es, Send(sig));
    LaterSampled(es, sent, s, n);
    assert (sent + [s])[|sent|] == s;
  }

  lemma BudgetDone(es: seq<Event>, sent: seq<Sent>, f: nat, o: Outcome, n: nat, b: HtSampling.Budget, groups: nat)
    requires Recorded(es, sent) && Recorded(es + [Done(f, o)], sent)
    requires InBudget(b, SampledIn(es, sent, n), groups)
    ensures var refilled := HtSampling.Refilled(b);
            InBudget(if o.expired then refilled.(count := 10 * groups) else refilled,
                     SampledIn(es + [Done(f, o)], sent, n), groups)
  {
    Last(es, Done(f, o));
  }

  // ----- The run -----

  ghost predicate Running(st: Station, l: Labels)
    reads st, st.rates, st.groups, st.maxTp, st.rateTable
  {
    && st.Valid() && st.maxRates >= 3 && OneEach(st)
    && Labelled(st.rateTable[..], l, st.cckRates)
  }

  function Groups(st: Station): nat
    requires Shaped(st.supported)
  {
    multiset(Flags(st.supported))[true]
  }

  // How a frame that met the given signal went out: a sample that suits it is in its
  // slot, and cells were cleared only if the sample was too fast for it, all of them
  // supported and at least two above the highest rate allowed.
  predicate WentOut(s: Sent, sig: Signal, supported: Masks)
    requires Shaped(supported)
  {
    && |s.cells| == 3
    && (Fitable(s.sample, sig) ==> s.sample.slot < 2 && s.cells[s.sample.slot] == s.sample.cell)
    && forall c :: c in s.cleared ==>
                     && c < CELLS && Has(supported, c)
                     && Hopeless(s.sample, sig) && c % MCS_GROUP_RATES >= sig.maxRate + 2
  }

  predicate AllWentOut(es: seq<Event>, sent: seq<Sent>, supported: Masks)
    requires Shaped(supported)
  {
    forall i :: 0 <= i < |es| && es[i].Send? ==>
                  Sends(es[..i]) < |sent| && WentOut(sent[Sends(es[..i])], es[i].sig, supported)
  }

  lemma WentOutSend(es: seq<Event>, sent: seq<Sent>, sig: Signal, s: Sent, supported: Masks)
    requires Shaped(supported) && AllWentOut(es, sent, supported) && Sends(es) == |sent|
    requires WentOut(s, sig, supported)
    ensures AllWentOut(es + [Send(sig)], sent + [s], supported)
  {
    hide WentOut, Sends;
    var es', sent' := es + [Send(sig)], sent + [s];
    forall i | 0 <= i < |es'| && es'[i].Send?
      ensures Sends(es'[..i]) < |sent'| && WentOut(sent'[Sends(es'[..i])], es'[i].sig, supported)
    {
      assert es'[..i] == es[..i];
      if i == |es| {
        assert es[..i] == es;
      }
    }
  }

  lemma WentOutDone(es: seq<Event>, sent: seq<Sent>, f: nat, o: Outcome, supported: Masks)
    requires Shaped(supported) && AllWentOut(es, sent, supported)
    ensures AllWentOut(es + [Done(f, o)], sent, supported)
  {
    hide WentOut, Sends;
    var es' := es + [Done(f, o)];
    forall i | 0 <= i < |es'| && es'[i].Send?
      ensures Sends(es'[..i]) < |sent| && WentOut(sent[Sends(es'[..i])], es'[i].sig, supported)
    {
      assert es'[..i] == es[..i];
    }
  }

  // What the frames of a run went out with.
  ghost predicate Chained(sent: seq<Sent>, cckRates: seq<nat>)
    requires |cckRates| == 4
  {
    forall j :: 0 <= j < |sent| ==> ChainOf(sent[j].rc, sent[j].cells, cckRates)
  }

  lemma RunningIs(st: Station, l: Labels)
    requires Running(st, l)
    ensures st.Configured() && st.NamesOk() && |st.cckRates| == 4 && Shaped(st.supported) && |st.rates[..]| == CELLS
  {
    hide Caps, Labelled;
  }

  lemma ChainedMore(sent: seq<Sent>, s: Sent, cckRates: seq<nat>)
    requires |cckRates| == 4 && Chained(sent, cckRates) && ChainOf(s.rc, s.cells, cckRates)
    ensures Chained(sent + [s], cckRates) && |s.rc| == 4 && |s.cells| == 3
  {
    hide Names;
  }

  // One frame goes out.
  method PlaySend(st: Station, sig: Signal, ghost l: Labels) returns (rc: seq<RateCtrl>, ghost s: Sent)
    requires Running(st, l)
    modifies st`sampleWait, st`sampleTries, st`sampleGroup, st.groups, st.rates
    ensures Running(st, l) && (old(st.TableWritten()) ==> st.TableWritten())
    ensures |rc| == 4 && s.rc == rc && s.cells == ChainCells(s.sample, Fitable(s.sample, sig), l)
    ensures ChainOf(rc, s.cells, st.cckRates)
    ensures st.rates[..] == AfterDrop(s.sample, sig, st.supported, old(st.rates[..]))
    ensures s.cleared == ClearedBy(s.sample, sig, st.supported, old(st.rates[..])) && WentOut(s, sig, st.supported)
    ensures st.BudgetNow() == HtSampling.Asked(old(st.BudgetNow()), s.sample.Sampled?)
    ensures s.sample.Sampled? ==> HtSampling.Issues(old(st.BudgetNow()), true)
  {
    hide Caps, Labelled, ChainOf, AfterDrop, Fitable, ChainCells, ClearedBy, Station.StatsOk, Station.AirOk,
         Station.ListsOk, Station.CursorsOk, Station.LoadOk, Station.TableWritten, HtSampling.Asked;
    RunningIs(st, l);
    ghost var cleared := st.rates[..];
    var entries, sample := FindRate(st, sig, l);
    rc := entries[..];
    s := Sent(sample, rc, ChainCells(sample, Fitable(sample, sig), l), ClearedBy(sample, sig, st.supported, cleared));
    SentOut(s, sig, st.supported, cleared, l);
  }

  lemma SentOut(s: Sent, sig: Signal, supported: Masks, was: seq<Stats>, l: Labels)
    requires Shaped(supported) && |was| == CELLS && (s.sample.Sampled? ==> s.sample.slot < 2)
    requires s.cells == ChainCells(s.sample, Fitable(s.sample, sig), l)
    requires s.cleared == ClearedBy(s.sample, sig, supported, was)
    ensures WentOut(s, sig, supported)
  {
    hide Has, Hopeless;
  }

  // One frame is completed, with the entries that it went out with.
  method PlayDone(st: Station, rc: seq<RateCtrl>, ghost cells: seq<nat>, o: Outcome, ghost l: Labels)
    returns (ghost l': Labels)
    requires Running(st, l) && st.ampduPackets + 1 < 0x10_0000
    requires |rc| == 4 && |cells| == 3 && ChainOf(rc, cells, st.cckRates)
    modifies st, st.rates, st.groups, st.maxTp, st.rateTable
    ensures Running(st, l') && st.ampduPackets == if o.expired then 0 else old(st.ampduPackets) + 1
    ensures Relabelled(st, old(st.rateTable[..]), l, l')
    ensures old(st.TableWritten()) || o.expired ==> st.TableWritten()
    ensures Told(rc, cells, o, st.cckRates, st.supported, old(st.rates[..]), st.rates[..])
    ensures var refilled := HtSampling.Refilled(old(st.BudgetNow()));
            st.BudgetNow() == if o.expired then refilled.(count := 10 * Groups(st)) else refilled
  {
    hide Caps, Labelled, ChainOf, Told, Station.StatsOk, Station.AirOk, Station.ListsOk, Station.CursorsOk,
         Station.LoadOk, Station.TableWritten, HtSampling.Refilled, Flags;
    RunningIs(st, l);
    var entries := new RateCtrl[4](i requires 0 <= i < 4 => rc[i]);
    assert entries[..] == rc;
    l' := Complete(st, entries, cells, o, l);
  }

  // What holds of a station after the events es, that had the statistics was and packets
  // statuses in its interval before them; written says whether its table was up to date.
  ghost predicate Played(st: Station, l: Labels, es: seq<Event>, sent: seq<Sent>, was: seq<Stats>, packets: nat, n: nat,
                         written: bool)
    reads st, st.rates, st.groups, st.maxTp, st.rateTable
  {
    && Running(st, l) && st.Configured() && st.NamesOk() && |was| == |st.rates[..]| == CELLS
    && Recorded(es, sent) && |sent| == Sends(es) && Chained(sent, st.cckRates)
    && st.ampduPackets == InInterval(es, packets)
    && RunKept(es, sent, st.cckRates, st.supported, was, st.rates[..]) && AllWentOut(es, sent, st.supported)
    && InBudget(st.BudgetNow(), SampledIn(es, sent, n), Groups(st))
    && (written || Renewed(es) ==> st.TableWritten())
  }

  method PlayOneSend(st: Station, sig: Signal, ghost l: Labels, ghost es: seq<Event>, ghost sent: seq<Sent>,
                     ghost was: seq<Stats>, ghost packets: nat, ghost n: nat, ghost written: bool)
    returns (rc: seq<RateCtrl>, ghost s: Sent)
    requires Played(st, l, es, sent, was, packets, n, written)
    modifies st`sampleWait, st`sampleTries, st`sampleGroup, st.groups, st.rates
    ensures Played(st, l, es + [Send(sig)], sent + [s], was, packets, n, written) && s.rc == rc
  {
    hide Running, AllWentOut, WentOut, RunKept, Chained, ChainOf, InBudget, AfterDrop, ClearedBy, ChainCells, Fitable,
         Recorded, Renewed, Caps, InInterval, Station.TableWritten, Station.NamesOk, HtSampling.Asked,
         HtSampling.Issues;
    ghost var mid, b := st.rates[..], st.BudgetNow();
    rc, s := PlaySend(st, sig, l);
    RunningIs(st, l);
    Last(es, Send(sig));
    RenewedNext(es, Send(sig));
    ChainedMore(sent, s, st.cckRates);
    KeptSend(es, sent, sig, s, st.cckRates, st.supported, was, mid, st.rates[..]);
    BudgetSend(es, sent, sig, s, n, b, Groups(st));
    WentOutSend(es, sent, sig, s, st.supported);
    NextInInterval(es, Send(sig), packets);
  }

  method PlayOneDone(st: Station, rc: seq<RateCtrl>, f: nat, o: Outcome, ghost l: Labels, ghost es: seq<Event>,
                     ghost sent: seq<Sent>, ghost was: seq<Stats>, ghost packets: nat, ghost n: nat,
                     ghost written: bool)
    returns (ghost l': Labels)
    requires Played(st, l, es, sent, was, packets, n, written) && st.ampduPackets + 1 < 0x10_0000
    requires f < |sent| && sent[f].rc == rc
    modifies st, st.rates, st.groups, st.maxTp, st.rateTable
    ensures Played(st, l', es + [Done(f, o)], sent, was, packets, n, written)
  {
    hide Running, AllWentOut, RunKept, Chained, ChainOf, InBudget, Told, Recorded, Renewed, Caps, InInterval,
         Relabelled, Flags, Station.TableWritten, Station.NamesOk, HtSampling.Refilled;
    ghost var mid, b := st.rates[..], st.BudgetNow();
    ChainedAt(sent, f, st.cckRates);
    l' := PlayDone(st, rc, sent[f].cells, o, l);
    RunningIs(st, l');
    Last(es, Done(f, o));
    RenewedNext(es, Done(f, o));
    KeptDone(es, sent, f, o, st.cckRates, st.supported, was, mid, st.rates[..]);
    BudgetDone(es, sent, f, o, n, b, Groups(st));
    WentOutDone(es, sent, f, o, st.supported);
    NextInInterval(es, Done(f, o), packets);
  }

  lemma NextInInterval(es: seq<Event>, e: Event, n: nat)
    ensures InInterval(es + [e], n) ==
            if e.Send? then InInterval(es, n) else if e.outcome.expired then 0 else InInterval(es, n) + 1
  {
    Last(es, e);
  }

  // Over every run of frames sent and completed in any order the station stays valid,
  // its average length stays at one subframe, so the throughput estimate never divides
  // by zero, and its table stays labelled. Every supported cell has counted exactly the
  // tries made at it, since the start or since it was last cleared. No interval issues
  // more samples than its budget.
  method ServeAll(st: Station, es: seq<Event>, ghost l: Labels, ghost n: nat)
    returns (ghost sent: seq<Sent>, ghost l': Labels)
    requires Running(st, l) && Playable(es, st.ampduPackets) && InBudget(st.BudgetNow(), n, Groups(st))
    modifies st, st.rates, st.groups, st.maxTp, st.rateTable
    ensures Running(st, l') && st.ampduPackets == InInterval(es, old(st.ampduPackets))
    ensures Recorded(es, sent) && |sent| == Sends(es) && Chained(sent, st.cckRates)
    ensures RunKept(es, sent, st.cckRates, st.supported, old(st.rates[..]), st.rates[..])
    ensures AllWentOut(es, sent, st.supported)
    ensures InBudget(st.BudgetNow(), SampledIn(es, sent, n), Groups(st))
    ensures old(st.TableWritten()) || Renewed(es) ==> st.TableWritten()
  {
    hide Played, Playable, AllWentOut, Running, Sends, Caps, RunKept, Chained, InBudget, Recorded, Renewed, InInterval,
         Station.TableWritten, Station.NamesOk, Station.Configured;
    RunningIs(st, l);
    ghost var was, packets, written := st.rates[..], st.ampduPackets, st.TableWritten();
    NothingYet(st.cckRates, st.supported, was);
    PlayedStart(st, l, n);
    sent, l' := [], l;
    var frames: seq<seq<RateCtrl>> := [];
    var i := 0;
    assert es[..0] == [];
    while i < |es|
      invariant 0 <= i <= |es| && Played(st, l', es[..i], sent, was, packets, n, written)
      invariant |frames| == |sent| == Sends(es[..i]) && forall j :: 0 <= j < |sent| ==> sent[j].rc == frames[j]
    {
      assert es[..i + 1] == es[..i] + [es[i]];
      Last(es[..i], es[i]);
      match es[i] {
        case Send(sig) =>
          ghost var s;
          var rc;
          rc, s := PlayOneSend(st, sig, l', es[..i], sent, was, packets, n, written);
          frames, sent := frames + [rc], sent + [s];
        case Done(f, o) =>
          PlayableNext(es, i, packets);
          PlayedInterval(st, l', es[..i], sent, was, packets, n, written);
          l' := PlayOneDone(st, frames[f], f, o, l', es[..i], sent, was, packets, n, written);
      }
      i := i + 1;
    }
    assert es[..|es|] == es;
    PlayedInterval(st, l', es, sent, was, packets, n, written);
  }

  lemma PlayedStart(st: Station, l: Labels, n: nat)
    requires Running(st, l) && st.Configured() && st.NamesOk() && InBudget(st.BudgetNow(), n, Groups(st))
    ensures Played(st, l, [], [], st.rates[..], st.ampduPackets, n, st.TableWritten())
  {
    hide Running, RunKept, Chained, InBudget, Renewed, Caps, Station.TableWritten, Station.NamesOk;
    RunningIs(st, l);
    NothingYet(st.cckRates, st.supported, st.rates[..]);
  }

  lemma PlayedInterval(st: Station, l: Labels, es: seq<Event>, sent: seq<Sent>, was: seq<Stats>, packets: nat, n: nat,
                       written: bool)
    requires Played(st, l, es, sent, was, packets, n, written)
    ensures st.ampduPackets == InInterval(es, packets) && Running(st, l)
    ensures st.Configured() && st.NamesOk() && |was| == |st.rates[..]| == CELLS
    ensures Recorded(es, sent) && |sent| == Sends(es) && Chained(sent, st.cckRates)
    ensures RunKept(es, sent, st.cckRates, st.supported, was, st.rates[..]) && AllWentOut(es, sent, st.supported)
    ensures InBudget(st.BudgetNow(), SampledIn(es, sent, n), Groups(st))
    ensures written || Renewed(es) ==> st.TableWritten()
  {
    hide Running, AllWentOut, RunKept, Chained, InBudget, Recorded, Renewed, Caps, Station.TableWritten,
         Station.NamesOk;
  }

  lemma NothingYet(cckRates: seq<nat>, supported: Masks, was: seq<Stats>)
    requires |cckRates| == 4 && Shaped(supported) && |was| == CELLS
    ensures Recorded([], []) && Chained([], cckRates) && RunKept([], [], cckRates, supported, was, was)
    ensures !Renewed([]) && Sends([]) == 0
  {
    hide Has;
  }

  lemma RenewedNext(es: seq<Event>, e: Event)
    ensures Renewed(es + [e]) <==> Renewed(es) || (e.Done? && e.outcome.expired)
  {
    var es' := es + [e];
    assert es'[|es|] == e && forall i :: 0 <= i < |es| ==> es'[i] == es[i];
  }

  lemma PlayableNext(es: seq<Event>, i: nat, n: nat)
    requires Playable(es, n) && i < |es| && es[i].Done?
    ensures es[i].frame < Sends(es[..i]) && InInterval(es[..i], n) + 1 < 0x10_0000
  {
  }

  lemma ChainedAt(sent: seq<Sent>, f: nat, cckRates: seq<nat>)
    requires |cckRates| == 4 && Chained(sent, cckRates) && f < |sent|
    ensures ChainOf(sent[f].rc, sent[f].cells, cckRates) && |sent[f].rc| == 4 && |sent[f].cells| == 3
  {
    hide Names;
  }

  // ----- From the association on -----

  // The settings of minstrel_alloc and aml_minstrel_attach.
  const LINK: Retransmit.Link := Retransmit.Link(15, 1023, 6000, 3)
  const MAX_RATES: nat := 4

  // The rates whose subframes are short enough for three tries in a segment: none at 20
  // MHz, from index 6 at 40 MHz and from 3 at 80 MHz, one lower at 40 MHz with the short
  // guard interval, one higher at 80 MHz with the long one under protection.
  predicate Quick(group: nat, rate: nat, protected: bool) {
    match group
    case 2 => rate >= 6
    case 3 => rate >= 5
    case 7 => rate >= 6
    case 8 => rate >= 5
    case 9 => rate >= if protected then 4 else 3
    case 10 => rate >= 3
    case _ => false
  }

  // The durations on either side of these limits.
  lemma NarrowLimits()
    ensures Duration(6, 9) >= 1_729_000
    ensures Duration(7, 5) >= 1_729_000 && Duration(7, 6) < 1_609_000
    ensures Duration(8, 4) >= 1_729_000 && Duration(8, 5) < 1_609_000
  {
  }

  lemma WideLimits()
    ensures Duration(9, 2) >= 1_729_000 && 1_609_000 <= Duration(9, 3) < 1_729_000 && Duration(9, 4) < 1_609_000
    ensures Duration(10, 2) >= 1_729_000 && Duration(10, 3) < 1_609_000
  {
  }

  // The group whose durations bound those of a group, and the index from which they are
  // short.
  function Peer(group: nat): (r: (nat, nat))
    requires group < GROUPS
  {
    if group in {2, 7} then (7, 6) else if group in {3, 8} then (8, 5) else if group == 9 then (9, 4)
    else if group == 10 then (10, 3) else (6, 10)
  }

  lemma PeerIs(group: nat)
    requires group < GROUPS && group != CCK_GROUP
    ensures var peer := Peer(group).0;
            && peer > CCK_GROUP && Bandwidth(GroupFlags(peer)) == Bandwidth(GroupFlags(group))
            && (peer != 6 ==> GroupFlags(peer).shortGi == GroupFlags(group).shortGi)
            && (peer == 6 ==> GroupFlags(peer).shortGi)
  {
  }

  lemma QuickBounds(group: nat, rate: nat)
    requires group < GROUPS && group != CCK_GROUP && Listed(group, rate)
    ensures Quick(group, rate, false) <==> Duration(group, rate) < 1_729_000
    ensures Quick(group, rate, true) <==> Duration(group, rate) < 1_609_000
  {
    hide Duration, GroupFlags, Bandwidth;
    var (peer, from) := Peer(group);
    PeerIs(group);
    NarrowLimits();
    WideLimits();
    if rate < from {
      DurationOrder(group, peer, rate, from - 1);
    } else {
      DurationOrder(peer, group, from, rate);
    }
    if group == 9 && rate < 3 {
      DurationOrder(9, 9, rate, 2);
    }
  }

  lemma QuickIff(group: nat, rate: nat)
    requires group < GROUPS && Listed(group, rate)
    ensures var micros := Duration(group, rate) / 1000;
            && (Quick(group, rate, false) <==> micros + (if group == CCK_GROUP then 0 else 108) <= 1836)
            && (Quick(group, rate, true) <==> micros + (if group == CCK_GROUP then 0 else 228) <= 1836)
  {
    if group == CCK_GROUP {
      CckDurations(rate);
    } else {
      QuickBounds(group, rate);
      hide Duration, Quick;
    }
  }

  // The retry counts of a rate of at least 10% on such a link, with one subframe per
  // aggregate: three tries exactly for quick rates, two for all others.
  lemma ThreeTriesIff(st: Station, c: nat)
    requires st.Configured() && st.link == LINK && st.overhead == 108 && st.overheadRtscts == 228
    requires st.avgAmpduLen == SCALE && Named(c) && st.rates[c].probEwma >= 409
    requires Planned(st.link, st.rates[c], st.OverheadOf(c), st.OverheadRtsctsOf(c), st.TxTimeData(c))
    ensures var s, g, i := st.rates[c], c / MCS_GROUP_RATES, c % MCS_GROUP_RATES;
            && s.retryCount == (if Quick(g, i, false) then 3 else 2)
            && s.retryCountRtscts == (if Quick(g, i, true) then 3 else 2)
  {
    hide Duration, Caps, Quick, Retransmit.Largest, Flags, Shaped, Planned, SampleCursor.Fair;
    var g, i := c / MCS_GROUP_RATES, c % MCS_GROUP_RATES;
    var d := CellDuration(c) / 1000;
    QuickIff(g, i);
    DurationFits(g, i);
    st.RetriesFit(c, d);
    LargestOfThree(d + if g == CCK_GROUP then 0 else 108, 3, st.rates[c].retryCount);
    LargestOfThree(d + if g == CCK_GROUP then 0 else 228, st.rates[c].retryCount, st.rates[c].retryCountRtscts);
  }

  lemma LargestOfThree(perTry: nat, cap: nat, k: nat)
    requires cap <= 3 && Retransmit.Largest(LINK, perTry, cap, k)
    ensures k == if cap == 3 && perTry <= 1836 then 3 else 2
  {
    hide Retransmit.Spent;
    Retransmit.ThreeFit(LINK, perTry);
  }

  lemma DurationFits(group: nat, rate: nat)
    requires group < GROUPS && Listed(group, rate)
    ensures Duration(group, rate) < TWO32
  {
    if group == CCK_GROUP {
      CckDurations(rate);
    } else {
      var symbols := SymbolTime(group, rate);
      hide Duration;
      if symbols > MCS_NBITS {
        ScaleUp(symbols - 1, 1, Bps(group, rate));
        assert false;
      }
    }
  }

  // aml_minstrel_init for an HT station whose signal allows the given rate and bandwidth.
  // The rate table is written before the start statistics are ranked, so it may lag
  // behind the chosen rates until the first interval ends.
  method Associate(supported: Masks, table: seq<seq<nat>>, cckRates: seq<nat>, maxRate: nat, bw: nat)
    returns (st: Station, ghost l: Labels)
    requires Shaped(supported) && Caps(supported) && true in Flags(supported)
    requires |table| == SampleTable.SAMPLE_COLUMNS && SampleCursor.Fair(table, MCS_GROUP_RATES) && |cckRates| == 4
    requires maxRate < MCS_GROUP_RATES
    ensures fresh(st) && fresh(st.rates) && fresh(st.groups) && fresh(st.maxTp) && fresh(st.rateTable)
    ensures st.supported == supported && st.table == table && st.cckRates == cckRates && st.link == LINK
    ensures st.overhead == 108 && st.overheadRtscts == 228
    ensures Running(st, l) && st.ampduPackets == 0
    ensures st.BudgetNow() == HtSampling.Budget(0, 4, 10 * Groups(st))
    ensures st.SamplerNow().group == 0
  {
    hide Caps, Flags, SampleCursor.Fair, Labelled, Station.StatsOk, Station.ListsOk, Station.CursorsOk, Station.LoadOk,
         Station.TableWritten, NewAvg, KeepsAverage, Robust, Restarted, Station.Rated, Station.Recomputed,
         Station.MostProbable, Station.Lists, Station.Cursors, Named, ListsNamed;
    FewSubframesKeep(SCALE, 0, 0);
    st := new Station(supported, table, cckRates, LINK, MAX_RATES, true);
    l := Labels(st.maxTp[0], st.maxTp[1], st.maxProb);
    WrittenTable(st);
    st.InitStartStats(maxRate, bw);
  }

  // The whole life of a station under the driver, for every run of frames after its
  // association: it never leaves the invariant, and start holds its statistics when the
  // first frame was sent.
  method Live(supported: Masks, table: seq<seq<nat>>, cckRates: seq<nat>, maxRate: nat, bw: nat, es: seq<Event>)
    returns (st: Station, ghost start: seq<Stats>, ghost sent: seq<Sent>, ghost l: Labels)
    requires Shaped(supported) && Caps(supported) && true in Flags(supported)
    requires |table| == SampleTable.SAMPLE_COLUMNS && SampleCursor.Fair(table, MCS_GROUP_RATES) && |cckRates| == 4
    requires maxRate < MCS_GROUP_RATES && Playable(es, 0)
    ensures fresh(st) && st.supported == supported && st.cckRates == cckRates
    ensures st.link == LINK && st.overhead == 108 && st.overheadRtscts == 228
    ensures Running(st, l) && st.ampduPackets == InInterval(es, 0)
    ensures Recorded(es, sent) && |sent| == Sends(es) && Chained(sent, cckRates)
    ensures |start| == CELLS && |st.rates[..]| == CELLS
    ensures RunKept(es, sent, cckRates, supported, start, st.rates[..]) && AllWentOut(es, sent, supported)
    ensures SampledIn(es, sent, 0) <= 4 + 20 * multiset(Flags(supported))[true]
    ensures Renewed(es) ==> st.NamesOk() && st.TableWritten()
  {
    hide Caps, Flags, SampleCursor.Fair, Labelled, Running, Playable, RunKept, AllWentOut, Chained,
         Station.TableWritten, Station.NamesOk;
    st, l := Associate(supported, table, cckRates, maxRate, bw);
    RunningIs(st, l);
    start := st.rates[..];
    sent, l := ServeAll(st, es, l, 0);
    RunningIs(st, l);
  }
}
