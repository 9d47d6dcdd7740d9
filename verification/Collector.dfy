/** The load harness's receipt collector: a tracked transaction leaves the in-flight map when a block
    contains it or when it has been missed twice, and its effect is decided by its receipt. */
module Collector {
  import opened Wrappers
  import opened Nonces

  /** A transaction is known by its hash, and its hash by who signed it with which nonce. */
  datatype Hash = Hash(wallet: Wallet, nonce: nat)

  datatype Meta = Meta(submitMs: int, deadline: int, rebroadcast: bool, signed: bool)

  datatype Job = Job(hash: Hash, tries: nat)

  datatype Outcome = Mined | TimedOut(submitMs: int, at: int, signed: bool)

  datatype Tracking = Tracking(
    inflight: map<Hash, Meta>,
    receipts: seq<Job>,
    submitted: nat, mined: nat, timedOut: nat, rebroadcasts: nat,
    // what onSettle was called with, how often, and which hashes were sent again
    settled: map<Hash, Outcome>, settleCalls: nat, resent: set<Hash>)

  const MAX_RECEIPT_TRIES: nat := 4

  const EMPTY := Tracking(map[], [], 0, 0, 0, 0, map[], 0, {})

  // ---- one turn of each loop ----

  function Track(c: Tracking, h: Hash, submitMs: int, signed: bool, now: int, timeoutMs: nat): Tracking {
    var since := if submitMs != 0 then submitMs else now;
    c.(inflight := c.inflight[h := Meta(submitMs, since + timeoutMs, false, signed)], submitted := c.submitted + 1)
  }

  /** A hash in a scanned block. */
  function See(c: Tracking, h: Hash): Tracking {
    if h !in c.inflight then c
    else
      c.(inflight := c.inflight - {h}, mined := c.mined + 1,
         settled := c.settled[h := Mined], settleCalls := c.settleCalls + 1,
         receipts := c.receipts + [Job(h, 0)])
  }

  function Scan(c: Tracking, hashes: seq<Hash>): Tracking {
    if hashes == [] then c else See(Scan(c, hashes[..|hashes| - 1]), hashes[|hashes| - 1])
  }

  function Miss(c: Tracking, h: Hash, now: int, timeoutMs: nat): Tracking
    requires h in c.inflight
  {
    var m := c.inflight[h];
    if now <= m.deadline then c
    else if !m.rebroadcast && m.signed then
      c.(inflight := c.inflight[h := m.(rebroadcast := true, deadline := now + timeoutMs)],
         rebroadcasts := c.rebroadcasts + 1, resent := c.resent + {h})
    else
      c.(inflight := c.inflight - {h}, timedOut := c.timedOut + 1,
         settled := c.settled[h := TimedOut(m.submitMs, now, m.signed)], settleCalls := c.settleCalls + 1)
  }

  /** The sweep looks at the entries in the order of the map. */
  function Sweep(c: Tracking, order: seq<Hash>, now: int, timeoutMs: nat): Tracking {
    if order == [] then c
    else
      var p := Sweep(c, order[..|order| - 1], now, timeoutMs);
      var h := order[|order| - 1];
      if h in p.inflight then Miss(p, h, now, timeoutMs) else p
  }

  /** The hashes a block takes off the map, in order. */
  function Seen(c: Tracking, hashes: seq<Hash>): seq<Hash> {
    if hashes == [] then []
    else
      var before, h := hashes[..|hashes| - 1], hashes[|hashes| - 1];
      Seen(c, before) + if h in Scan(c, before).inflight then [h] else []
  }

  /** The hashes the sweep gives up, in order. */
  function GivenUp(c: Tracking, order: seq<Hash>, now: int, timeoutMs: nat): seq<Hash> {
    if order == [] then []
    else
      var before, h := order[..|order| - 1], order[|order| - 1];
      var p := Sweep(c, before, now, timeoutMs);
      GivenUp(c, before, now, timeoutMs)
      + if h in p.inflight && h !in Miss(p, h, now, timeoutMs).inflight then [h] else []
  }

  /** The hashes whose effect the sweep gives up: those it takes off the map. */
  function Lost(c: Tracking, order: seq<Hash>, now: int, timeoutMs: nat): set<Hash> {
    c.inflight.Keys - Sweep(c, order, now, timeoutMs).inflight.Keys
  }

  /** A receipt job, answered or not; also what it decides, if anything. A job a worker holds while it
      waits for an answer still counts as queued, so the one that is answered may be any. */
  function Answer(c: Tracking, i: nat, status: Option<bool>): (Tracking, Option<bool>)
    requires i < |c.receipts|
  {
    var job := c.receipts[i];
    var rest := c.receipts[..i] + c.receipts[i + 1..];
    if status.Some? then (c.(receipts := rest), status)
    else if job.tries < MAX_RECEIPT_TRIES then
      (c.(receipts := rest + [Job(job.hash, job.tries + 1)]), None)
    else (c.(receipts := rest), Some(false))
  }

  // ---- what every turn keeps ----

  /** Every tracked transaction is in flight or settled, and counted so. */
  ghost predicate Counts(c: Tracking) {
    && c.submitted == c.mined + c.timedOut + |c.inflight|
    && c.settleCalls == |c.settled| == c.mined + c.timedOut
    && (forall h :: h in c.settled ==> h !in c.inflight)
    && c.rebroadcasts == |c.resent|
  }

  /** Late, and how late: an entry on its second window, and one that ran out. */
  ghost predicate Late(m: Meta, timeoutMs: nat) {
    && m.deadline >= m.submitMs + timeoutMs
    && (m.rebroadcast ==> m.signed && m.deadline > m.submitMs + 2 * timeoutMs)
  }

  ghost predicate Windows(c: Tracking, timeoutMs: nat) {
    && (forall h :: h in c.inflight ==>
          Late(c.inflight[h], timeoutMs) && (c.inflight[h].rebroadcast <==> h in c.resent))
    && (forall h :: h in c.resent ==> h in c.inflight || h in c.settled)
    && (forall h :: h in c.settled && c.settled[h].TimedOut? ==>
          c.settled[h].at > c.settled[h].submitMs + (if c.settled[h].signed then 2 * timeoutMs else timeoutMs))
  }

  ghost predicate Jobs(c: Tracking) {
    && (forall i :: 0 <= i < |c.receipts| ==>
          c.receipts[i].hash in c.settled && c.settled[c.receipts[i].hash].Mined?
          && c.receipts[i].tries <= MAX_RECEIPT_TRIES)
    && (forall i, j :: 0 <= i < j < |c.receipts| ==> c.receipts[i].hash != c.receipts[j].hash)
  }

  ghost predicate Inv(c: Tracking, timeoutMs: nat) {
    Counts(c) && Windows(c, timeoutMs) && Jobs(c)
  }

  lemma PutIn<V>(m: map<Hash, V>, h: Hash, v: V)
    ensures |m[h := v]| == |m| + if h in m then 0 else 1
  {
    assert m[h := v].Keys == m.Keys + {h};
    assert |m[h := v]| == |m[h := v].Keys| && |m| == |m.Keys|;
  }

  lemma TakenOut<V>(m: map<Hash, V>, h: Hash)
    requires h in m
    ensures |m - {h}| == |m| - 1
  {
    assert (m - {h}).Keys == m.Keys - {h};
    assert |m - {h}| == |(m - {h}).Keys| && |m| == |m.Keys|;
  }

  lemma NothingTracked(timeoutMs: nat)
    ensures Inv(EMPTY, timeoutMs)
  {
    NothingCounted();
    hide Counts;
  }

  lemma NothingCounted()
    ensures Counts(EMPTY)
  {}

  lemma TrackCounts(c: Tracking, h: Hash, submitMs: int, signed: bool, now: int, timeoutMs: nat)
    requires Counts(c) && h !in c.inflight && h !in c.settled
    ensures Counts(Track(c, h, submitMs, signed, now, timeoutMs))
  {
    PutIn(c.inflight, h, Track(c, h, submitMs, signed, now, timeoutMs).inflight[h]);
  }

  lemma TrackKeepsInv(c: Tracking, h: Hash, submitMs: int, signed: bool, now: int, timeoutMs: nat)
    requires Inv(c, timeoutMs) && h !in c.inflight && h !in c.settled
    requires submitMs != 0 || now >= 0
    ensures Inv(Track(c, h, submitMs, signed, now, timeoutMs), timeoutMs)
  {
    TrackCounts(c, h, submitMs, signed, now, timeoutMs);
    hide Counts;
  }

  /** What leaves the map is settled, whatever it was. */
  lemma SettleCounts(c: Tracking, t: Tracking, h: Hash, o: Outcome)
    requires Counts(c) && h in c.inflight
    requires t.inflight == c.inflight - {h} && t.settled == c.settled[h := o] && t.settleCalls == c.settleCalls + 1
    requires t.mined + t.timedOut == c.mined + c.timedOut + 1 && t.submitted == c.submitted
    requires t.resent == c.resent && t.rebroadcasts == c.rebroadcasts
    ensures Counts(t)
  {
    TakenOut(c.inflight, h);
    PutIn(c.settled, h, o);
  }

  lemma SeeKeepsInv(c: Tracking, h: Hash, timeoutMs: nat)
    requires Inv(c, timeoutMs)
    ensures Inv(See(c, h), timeoutMs)
  {
    if h in c.inflight {
      assert h !in c.settled;
      SettleCounts(c, See(c, h), h, Mined);
    }
    hide Counts;
    hide Late;
  }

  lemma {:induction false} ScanKeepsInv(c: Tracking, hashes: seq<Hash>, timeoutMs: nat)
    requires Inv(c, timeoutMs)
    ensures Inv(Scan(c, hashes), timeoutMs)
  {
    if hashes != [] {
      ScanKeepsInv(c, hashes[..|hashes| - 1], timeoutMs);
      SeeKeepsInv(Scan(c, hashes[..|hashes| - 1]), hashes[|hashes| - 1], timeoutMs);
    }
  }

  lemma ResendCounts(c: Tracking, h: Hash, m: Meta)
    requires Counts(c) && h in c.inflight && h !in c.resent
    ensures Counts(c.(inflight := c.inflight[h := m], rebroadcasts := c.rebroadcasts + 1, resent := c.resent + {h}))
  {
    PutIn(c.inflight, h, m);
  }

  lemma LateAgain(m: Meta, now: int, timeoutMs: nat)
    requires Late(m, timeoutMs) && now > m.deadline
    ensures m.signed ==> Late(m.(rebroadcast := true, deadline := now + timeoutMs), timeoutMs)
    ensures m.rebroadcast || !m.signed ==> now > m.submitMs + (if m.signed then 2 * timeoutMs else timeoutMs)
  {}

  lemma ResendWindows(c: Tracking, t: Tracking, h: Hash, again: Meta, timeoutMs: nat)
    requires Windows(c, timeoutMs) && h in c.inflight && Late(again, timeoutMs) && again.rebroadcast
    requires t.settled == c.settled && t.resent == c.resent + {h} && t.inflight == c.inflight[h := again]
    ensures Windows(t, timeoutMs)
  {
    hide Late;
  }

  lemma ResendKeepsInv(c: Tracking, h: Hash, now: int, timeoutMs: nat)
    requires Inv(c, timeoutMs) && h in c.inflight
    requires now > c.inflight[h].deadline && !c.inflight[h].rebroadcast && c.inflight[h].signed
    ensures Inv(Miss(c, h, now, timeoutMs), timeoutMs)
  {
    var m := c.inflight[h];
    var again, t := m.(rebroadcast := true, deadline := now + timeoutMs), Miss(c, h, now, timeoutMs);
    assert Late(m, timeoutMs) && h !in c.resent;
    assert Jobs(t);
    hide Late;
    hide Windows;
    hide Counts;
    hide Jobs;
    LateAgain(m, now, timeoutMs);
    ResendCounts(c, h, again);
    ResendWindows(c, t, h, again, timeoutMs);
  }

  lemma GiveUpKeepsInv(c: Tracking, h: Hash, now: int, timeoutMs: nat)
    requires Inv(c, timeoutMs) && h in c.inflight
    requires now > c.inflight[h].deadline && (c.inflight[h].rebroadcast || !c.inflight[h].signed)
    ensures Inv(Miss(c, h, now, timeoutMs), timeoutMs)
  {
    hide Late;
    var m, t := c.inflight[h], Miss(c, h, now, timeoutMs);
    var o := TimedOut(m.submitMs, now, m.signed);
    LateAgain(m, now, timeoutMs);
    SettleCounts(c, t, h, o);
    assert h !in c.settled;
    hide Counts;
    assert t.settled == c.settled[h := o] && t.receipts == c.receipts && t.resent == c.resent
        && t.inflight == c.inflight - {h};
    hide Miss;
  }

  lemma MissKeepsInv(c: Tracking, h: Hash, now: int, timeoutMs: nat)
    requires Inv(c, timeoutMs) && h in c.inflight
    ensures Inv(Miss(c, h, now, timeoutMs), timeoutMs)
  {
    hide Inv;
    var m := c.inflight[h];
    if now > m.deadline {
      if !m.rebroadcast && m.signed {
        ResendKeepsInv(c, h, now, timeoutMs);
      } else {
        GiveUpKeepsInv(c, h, now, timeoutMs);
      }
    }
  }

  lemma {:induction false} SweepKeepsInv(c: Tracking, order: seq<Hash>, now: int, timeoutMs: nat)
    requires Inv(c, timeoutMs)
    ensures Inv(Sweep(c, order, now, timeoutMs), timeoutMs)
  {
    if order != [] {
      SweepKeepsInv(c, order[..|order| - 1], now, timeoutMs);
      var p := Sweep(c, order[..|order| - 1], now, timeoutMs);
      if order[|order| - 1] in p.inflight {
        MissKeepsInv(p, order[|order| - 1], now, timeoutMs);
      }
    }
  }

  lemma AnswerKeepsInv(c: Tracking, i: nat, status: Option<bool>, timeoutMs: nat)
    requires Inv(c, timeoutMs) && i < |c.receipts|
    ensures Inv(Answer(c, i, status).0, timeoutMs)
  {
    var d := Answer(c, i, status).0;
    assert Counts(d) && Windows(d, timeoutMs);
    hide Counts;
    hide Windows;
  }

  function Elements(s: seq<Hash>): set<Hash> {
    set h | h in s
  }

  lemma ElementsSnoc(s: seq<Hash>, h: Hash)
    ensures Elements(s + [h]) == Elements(s) + {h}
  {}

  /** What the sweep gives up is what it takes off the map. */
  lemma {:induction false} GivenUpIsLost(c: Tracking, order: seq<Hash>, now: int, timeoutMs: nat)
    ensures Elements(GivenUp(c, order, now, timeoutMs)) == Lost(c, order, now, timeoutMs)
    ensures Sweep(c, order, now, timeoutMs).inflight.Keys <= c.inflight.Keys
  {
    if order != [] {
      var before, h := order[..|order| - 1], order[|order| - 1];
      var p := Sweep(c, before, now, timeoutMs);
      GivenUpIsLost(c, before, now, timeoutMs);
      var gone := GivenUp(c, before, now, timeoutMs);
      ElementsSnoc(gone, h);
      assert gone + [] == gone;
      if h in p.inflight {
        var d := Miss(p, h, now, timeoutMs);
        assert d.inflight.Keys == if h in d.inflight then p.inflight.Keys else p.inflight.Keys - {h};
      }
    }
  }

  // ---- what every turn does, entry by entry ----

  ghost predicate NoRepeat(s: seq<Hash>) {
    forall i, j :: 0 <= i < j < |s| ==> s[i] != s[j]
  }

  function NewJobs(hashes: seq<Hash>): (r: seq<Job>)
    ensures |r| == |hashes| && forall i :: 0 <= i < |r| ==> r[i] == Job(hashes[i], 0)
  {
    if hashes == [] then [] else NewJobs(hashes[..|hashes| - 1]) + [Job(hashes[|hashes| - 1], 0)]
  }

  lemma {:induction false} ScanEntries(c: Tracking, hashes: seq<Hash>)
    ensures var d, seen := Scan(c, hashes), Seen(c, hashes);
            && (forall h :: h in seen <==> h in c.inflight && h in hashes)
            && (forall h :: h in d.inflight <==> h in c.inflight && h !in hashes)
            && (forall h :: h in d.inflight ==> d.inflight[h] == c.inflight[h])
            && NoRepeat(seen)
  {
    if hashes != [] {
      var before, h := hashes[..|hashes| - 1], hashes[|hashes| - 1];
      ScanEntries(c, before);
      assert hashes == before + [h];
    }
  }

  lemma {:induction false} ScanQueues(c: Tracking, hashes: seq<Hash>)
    ensures var d, seen := Scan(c, hashes), Seen(c, hashes);
            && d.receipts == c.receipts + NewJobs(seen)
            && d.mined == c.mined + |seen| && d.timedOut == c.timedOut && d.submitted == c.submitted
  {
    if hashes != [] {
      var before, h := hashes[..|hashes| - 1], hashes[|hashes| - 1];
      var seen := Seen(c, before);
      ScanQueues(c, before);
      assert (seen + [h])[..|seen|] == seen;
      assert NewJobs(seen + [h]) == NewJobs(seen) + [Job(h, 0)] && seen + [] == seen;
      assert c.receipts + NewJobs(seen) + [Job(h, 0)] == c.receipts + (NewJobs(seen) + [Job(h, 0)]);
    }
  }

  /** A block takes its transactions off the map, each once, and queues one receipt for each that was there. */
  lemma ScanTakes(c: Tracking, hashes: seq<Hash>)
    ensures var d, seen := Scan(c, hashes), Seen(c, hashes);
            && (forall h :: h in seen <==> h in c.inflight && h in hashes)
            && (forall h :: h in d.inflight <==> h in c.inflight && h !in hashes)
            && (forall h :: h in d.inflight ==> d.inflight[h] == c.inflight[h])
            && NoRepeat(seen) && d.receipts == c.receipts + NewJobs(seen)
            && d.mined == c.mined + |seen| && d.timedOut == c.timedOut && d.submitted == c.submitted
  {
    ScanEntries(c, hashes);
    ScanQueues(c, hashes);
  }

  /** A sweep leaves alone what is not overdue. An overdue entry it meets is sent again, for one more
      window, if it never was and can be; else it has timed out. */
  lemma {:induction false} SweepOnEach(c: Tracking, order: seq<Hash>, now: int, timeoutMs: nat, h: Hash)
    requires h in c.inflight
    ensures var d, m := Sweep(c, order, now, timeoutMs), c.inflight[h];
            if h !in order || now <= m.deadline then h in d.inflight && d.inflight[h] == m
            else if !m.rebroadcast && m.signed then
              h in d.inflight && d.inflight[h] == Meta(m.submitMs, now + timeoutMs, true, true)
            else h !in d.inflight && h in d.settled && d.settled[h] == TimedOut(m.submitMs, now, m.signed)
  {
    if order != [] {
      var before, k := order[..|order| - 1], order[|order| - 1];
      assert order == before + [k];
      SweepOnEach(c, before, now, timeoutMs, h);
    }
  }

  /** A sweep gives an entry up once. */
  lemma {:induction false} GivenUpOnce(c: Tracking, order: seq<Hash>, now: int, timeoutMs: nat)
    ensures NoRepeat(GivenUp(c, order, now, timeoutMs))
    ensures forall h :: h in GivenUp(c, order, now, timeoutMs) <==>
                        h in c.inflight && h !in Sweep(c, order, now, timeoutMs).inflight
  {
    GivenUpIsLost(c, order, now, timeoutMs);
    forall h
      ensures h in GivenUp(c, order, now, timeoutMs) <==> h in Elements(GivenUp(c, order, now, timeoutMs))
    {}
    if order != [] {
      var before, h := order[..|order| - 1], order[|order| - 1];
      GivenUpOnce(c, before, now, timeoutMs);
    }
  }

  /** A receipt that was read decides as it says and its job is done. One that was not is asked for again,
      behind all others, up to four times; then the transaction counts as failed. */
  lemma AnswerDecides(c: Tracking, i: nat, status: Option<bool>)
    requires i < |c.receipts|
    ensures var (d, decided) := Answer(c, i, status); var (h, tries) := (c.receipts[i].hash, c.receipts[i].tries);
            var others := c.receipts[..i] + c.receipts[i + 1..];
            && d == c.(receipts := d.receipts)
            && (status == Some(true) ==> decided == Some(true) && d.receipts == others)
            && (status == Some(false) ==> decided == Some(false) && d.receipts == others)
            && (status == None && tries < 4 ==> decided == None && d.receipts == others + [Job(h, tries + 1)])
            && (status == None && tries >= 4 ==> decided == Some(false) && d.receipts == others)
  {}

  // ---- an overdue entry is settled by the second sweep ----

  /** Gone from the map, or on its second window, which ends by then. */
  ghost predicate Expiring(c: Tracking, h: Hash, until: int) {
    h in c.inflight ==> c.inflight[h].rebroadcast && c.inflight[h].deadline <= until
  }

  lemma {:induction false} ScanKeepsExpiring(c: Tracking, hashes: seq<Hash>, h: Hash, until: int)
    requires Expiring(c, h, until)
    ensures Expiring(Scan(c, hashes), h, until)
  {
    if hashes != [] { ScanKeepsExpiring(c, hashes[..|hashes| - 1], h, until); }
  }

  lemma {:induction false} SweepKeepsExpiring(c: Tracking, order: seq<Hash>, now: int, timeoutMs: nat, h: Hash,
      until: int)
    requires Expiring(c, h, until)
    ensures Expiring(Sweep(c, order, now, timeoutMs), h, until)
    ensures h in order && now > until ==> h !in Sweep(c, order, now, timeoutMs).inflight
  {
    if order != [] { SweepKeepsExpiring(c, order[..|order| - 1], now, timeoutMs, h, until); }
  }

  /** A sweep that meets an overdue entry gives it one more window or none. */
  lemma {:induction false} SweepStartsExpiring(c: Tracking, order: seq<Hash>, now: int, timeoutMs: nat, h: Hash)
    requires h in c.inflight && now > c.inflight[h].deadline
    ensures var d := Sweep(c, order, now, timeoutMs);
            if h in order then Expiring(d, h, now + timeoutMs) else h in d.inflight && d.inflight[h] == c.inflight[h]
  {
    if order != [] { SweepStartsExpiring(c, order[..|order| - 1], now, timeoutMs, h); }
  }

  class ReceiptCollector {
    const timeoutMs: nat
    var inflight: map<Hash, Meta>
    var receipts: seq<Job>
    var submitted: nat
    var mined: nat
    var timedOut: nat
    var rebroadcasts: nat
    ghost var settled: map<Hash, Outcome>
    ghost var settleCalls: nat
    ghost var resent: set<Hash>

    ghost function View(): Tracking
      reads this
    {
      Tracking(inflight, receipts, submitted, mined, timedOut, rebroadcasts, settled, settleCalls, resent)
    }

    constructor (timeoutMs: nat)
      ensures View() == EMPTY && this.timeoutMs == timeoutMs
    {
      this.timeoutMs := timeoutMs;
      inflight, receipts, submitted, mined, timedOut, rebroadcasts := map[], [], 0, 0, 0, 0;
      settled, settleCalls, resent := map[], 0, {};
    }

    method TrackTx(h: Hash, submitMs: int, signed: bool, now: int)
      modifies this
      ensures View() == Track(old(View()), h, submitMs, signed, now, timeoutMs)
      ensures submitted == old(submitted) + 1 && receipts == old(receipts)
      ensures inflight == old(inflight)[h := Meta(submitMs, (if submitMs != 0 then submitMs else now) + timeoutMs,
                                                  false, signed)]
    {
      submitted := submitted + 1;
      var since := if submitMs != 0 then submitMs else now;
      inflight := inflight[h := Meta(submitMs, since + timeoutMs, false, signed)];
    }

    /** The part of the block loop after the block has arrived. */
    method ScanBlock(transactions: seq<Hash>) returns (seen: seq<Hash>)
      modifies this
      ensures View() == Scan(old(View()), transactions) && seen == Seen(old(View()), transactions)
    {
      seen := [];
      assert transactions[..0] == [];
      for i := 0 to |transactions|
        invariant View() == Scan(old(View()), transactions[..i])
        invariant seen == Seen(old(View()), transactions[..i])
      {
        var h := transactions[i];
        assert transactions[..i + 1][..i] == transactions[..i];
        if h in inflight {
          inflight := inflight - {h};
          mined := mined + 1;
          settled, settleCalls := settled[h := Mined], settleCalls + 1;
          receipts := receipts + [Job(h, 0)];
          seen := seen + [h];
        }
      }
      assert transactions[..|transactions|] == transactions;
    }

    /** One pass of the sweep loop; returns the hashes it resolves as lost, in the order it meets them. */
    method SweepAll(order: seq<Hash>, now: int) returns (lost: seq<Hash>)
      modifies this
      ensures View() == Sweep(old(View()), order, now, timeoutMs)
      ensures lost == GivenUp(old(View()), order, now, timeoutMs)
    {
      lost := [];
      assert order[..0] == [];
      for i := 0 to |order|
        invariant View() == Sweep(old(View()), order[..i], now, timeoutMs)
        invariant lost == GivenUp(old(View()), order[..i], now, timeoutMs)
      {
        var h := order[i];
        assert order[..i + 1][..i] == order[..i];
        if h in inflight {
          var m := inflight[h];
          if now > m.deadline {
            if !m.rebroadcast && m.signed {
              inflight := inflight[h := m.(rebroadcast := true, deadline := now + timeoutMs)];
              rebroadcasts := rebroadcasts + 1;
              resent := resent + {h};
            } else {
              inflight := inflight - {h};
              timedOut := timedOut + 1;
              settled, settleCalls := settled[h := TimedOut(m.submitMs, now, m.signed)], settleCalls + 1;
              lost := lost + [h];
            }
          }
        }
      }
      assert order[..|order|] == order;
    }

    /** One turn of a receipt worker: `status` is what the providers answered, None if none did. */
    method ReceiptTurn(status: Option<bool>) returns (resolved: Option<bool>)
      requires receipts != []
      modifies this`receipts
      ensures (View(), resolved) == Answer(old(View()), 0, status)
      ensures status.Some? ==> resolved == status && receipts == old(receipts)[1..]
      ensures status.None? && old(receipts)[0].tries < 4 ==>
                resolved == None
                && receipts == old(receipts)[1..] + [Job(old(receipts)[0].hash, old(receipts)[0].tries + 1)]
      ensures status.None? && old(receipts)[0].tries >= 4 ==>
                resolved == Some(false) && receipts == old(receipts)[1..]
    {
      assert receipts[..0] + receipts[1..] == receipts[1..];
      var job := receipts[0];
      receipts := receipts[1..];
      if status.None? {
        if job.tries < MAX_RECEIPT_TRIES {
          receipts := receipts + [Job(job.hash, job.tries + 1)];
          return None;
        }
        return Some(false);
      }
      return status;
    }
  }
}
