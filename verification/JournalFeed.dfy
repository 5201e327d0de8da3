/** scripts/soak_harness.py: the append-only journal with long-poll readers, and the producer that fills
    it. Every call runs under the feed's condition, so calls take effect one at a time. */
module JournalFeed {

  datatype Event = Event(cursor: nat, entity: nat, revision: nat)

  /** Cursors only go up. */
  ghost predicate Increasing(log: seq<Event>) {
    forall i, j :: 0 <= i < j < |log| ==> log[i].cursor < log[j].cursor
  }

  /** `[e for e in events if e.source_cursor > after]` over the first n events. */
  function After(log: seq<Event>, n: nat, after: nat): seq<Event>
    requires n <= |log|
  {
    if n == 0 then []
    else After(log, n - 1, after) + (if log[n - 1].cursor > after then [log[n - 1]] else [])
  }

  function Take(events: seq<Event>, limit: nat): (chunk: seq<Event>)
    ensures |chunk| <= limit
  {
    if |events| <= limit then events else events[..limit]
  }

  function Newest(chunk: seq<Event>, after: nat): nat {
    if chunk == [] then after else chunk[|chunk| - 1].cursor
  }

  // ---------- The feed and the producer ----------

  class FakeJournalFeed {
    var events: seq<Event>
    var closed: bool

    constructor ()
      ensures events == [] && !closed
    {
      events := [];
      closed := false;
    }

    method Append(e: Event)
      modifies this
      ensures events == old(events) + [e] && closed == old(closed)
    {
      events := events + [e];
    }

    method Close()
      modifies this
      ensures closed && events == old(events)
    {
      closed := true;
    }

    /** One pass of the loop in `call`: the chunk and cursor to return, or another wait. Out of time
        the answer is the empty chunk. */
    method Poll(after: nat, limit: nat, outOfTime: bool) returns (answered: bool, chunk: seq<Event>, newest: nat)
      ensures chunk == Take(After(events, |events|, after), limit) && newest == Newest(chunk, after)
      ensures answered <==> chunk != [] || closed || outOfTime
    {
      var pending := [];
      for i := 0 to |events|
        invariant pending == After(events, i, after)
      {
        if events[i].cursor > after { pending := pending + [events[i]]; }
      }
      pending := Take(pending, limit);
      chunk := pending;
      if pending != [] || closed {
        newest := if pending != [] then pending[|pending| - 1].cursor else after;
        answered := true;
      } else {
        newest := after;
        answered := outOfTime;
      }
    }
  }

  /** The instrument the producer's i-th event is about. */
  function EntityOf(instruments: nat, i: nat): nat
    requires instruments >= 1
  {
    (i + 1) % instruments + 1
  }

  /** The i-th event the producer emits. */
  function Produced(instruments: nat, i: nat): Event
    requires instruments >= 1
    decreases i, 1
  {
    var entity := EntityOf(instruments, i);
    Event(i + 1, entity, 2 + Emitted(instruments, i, entity))
  }

  /** How many of the first n events are about an entity. */
  function Emitted(instruments: nat, n: nat, entity: nat): nat
    requires instruments >= 1
    decreases n, 0
  {
    if n == 0 then 0
    else Emitted(instruments, n - 1, entity) + (if EntityOf(instruments, n - 1) == entity then 1 else 0)
  }

  ghost predicate IsProduced(log: seq<Event>, instruments: nat) {
    instruments >= 1 && forall i :: 0 <= i < |log| ==> log[i] == Produced(instruments, i)
  }

  /** Every entity has one revision more than events so far, those without an entry being at 1. */
  ghost predicate CountsRevisions(revisions: map<nat, nat>, instruments: nat, n: nat)
    requires instruments >= 1
  {
    forall e: nat :: Emitted(instruments, n, e) + 1 == if e in revisions then revisions[e] else 1
  }

  lemma {:induction false} RevisionsStep(revisions: map<nat, nat>, instruments: nat, n: nat, known: nat)
    requires instruments >= 1 && CountsRevisions(revisions, instruments, n)
    requires var entity := EntityOf(instruments, n); known == if entity in revisions then revisions[entity] else 1
    ensures CountsRevisions(revisions[EntityOf(instruments, n) := known + 1], instruments, n + 1)
    ensures Produced(instruments, n) == Event(n + 1, EntityOf(instruments, n), known + 1)
  {
    var entity := EntityOf(instruments, n);
    forall e: nat
      ensures Emitted(instruments, n + 1, e) == Emitted(instruments, n, e) + (if e == entity then 1 else 0) {}
  }

  lemma {:induction false} ProducedStep(log: seq<Event>, instruments: nat)
    requires IsProduced(log, instruments)
    ensures IsProduced(log + [Produced(instruments, |log|)], instruments)
  {
  }

  class DomainProducer {
    const feed: FakeJournalFeed
    const instruments: nat
    var cursor: nat
    var revisions: map<nat, nat>

    ghost predicate Valid()
      reads this, feed
    {
      && instruments >= 1 && cursor == |feed.events| && IsProduced(feed.events, instruments)
      && CountsRevisions(revisions, instruments, cursor)
    }

    constructor (feed: FakeJournalFeed, instruments: nat)
      requires instruments >= 1 && feed.events == []
      ensures Valid() && this.feed == feed && this.instruments == instruments
    {
      this.feed := feed;
      this.instruments := instruments;
      cursor := 0;
      revisions := map[];
    }

    /** One turn of the loop in `run`. */
    method Emit()
      requires Valid()
      modifies this, feed
      ensures Valid() && feed.events == old(feed.events) + [Produced(instruments, |old(feed.events)|)]
      ensures feed.closed == old(feed.closed)
    {
      cursor := cursor + 1;
      var entity := cursor % instruments + 1;
      var known := if entity in revisions then revisions[entity] else 1;
      RevisionsStep(revisions, instruments, cursor - 1, known);
      ProducedStep(feed.events, instruments);
      revisions := revisions[entity := known + 1];
      feed.Append(Event(cursor, entity, revisions[entity]));
    }
  }

  // ---------- Readers ----------

  /** A reader that feeds each returned cursor back in: where it started, where it is, and what it got. */
  datatype Reader = Reader(first: nat, after: nat, got: seq<Event>)

  datatype System = System(log: seq<Event>, closed: bool, readers: seq<Reader>)

  /** Some events are appended by whoever owns the cursors: the next one is higher than all before. */
  ghost predicate AppendStep(s: System, t: System) {
    exists e: Event :: Higher(s.log, e) && t == s.(log := s.log + [e])
  }

  ghost predicate Higher(log: seq<Event>, e: Event) {
    forall i :: 0 <= i < |log| ==> log[i].cursor < e.cursor
  }

  /** Reader r's call returns: with a chunk, or empty after a timeout or the close. */
  ghost predicate ReturnStep(s: System, t: System, r: nat, limit: nat) {
    && r < |s.readers|
    && var reader := s.readers[r];
       var chunk := Take(After(s.log, |s.log|, reader.after), limit);
       t == s.(readers := s.readers[r := Reader(reader.first, Newest(chunk, reader.after), reader.got + chunk)])
  }

  ghost predicate CloseStep(s: System, t: System) { t == s.(closed := true) }

  ghost predicate Next(s: System, t: System) {
    AppendStep(s, t) || CloseStep(s, t) || exists r: nat, limit: nat :: ReturnStep(s, t, r, limit)
  }

  ghost predicate Init(s: System) {
    && s.log == []
    && forall r :: 0 <= r < |s.readers| ==> s.readers[r].got == [] && s.readers[r].after == s.readers[r].first
  }

  ghost predicate IsRun(run: seq<System>) {
    && |run| > 0 && Init(run[0])
    && forall i :: 0 <= i < |run| - 1 ==> Next(run[i], run[i + 1])
  }

  /** The events after the first cursor up to the reader's, in log order. */
  ghost predicate GotExactly(log: seq<Event>, reader: Reader) {
    && reader.got <= After(log, |log|, reader.first)
    && reader.after == Newest(reader.got, reader.first)
  }

  ghost predicate Inv(s: System) {
    Increasing(s.log) && forall r :: 0 <= r < |s.readers| ==> GotExactly(s.log, s.readers[r])
  }

  lemma {:induction false} AfterGrows(log: seq<Event>, e: Event, n: nat, after: nat)
    requires n <= |log|
    ensures After(log + [e], n, after) == After(log, n, after)
  {
    if n == 0 {
    } else {
      AfterGrows(log, e, n - 1, after);
    }
  }

  /** The first event above a cursor splits the log. */
  ghost predicate SplitsAt(log: seq<Event>, after: nat, k: nat) {
    && k <= |log|
    && (forall i :: 0 <= i < k ==> log[i].cursor <= after)
    && (forall i :: k <= i < |log| ==> log[i].cursor > after)
  }

  lemma {:induction false} SplitPoint(log: seq<Event>, n: nat, after: nat) returns (k: nat)
    requires n <= |log| && Increasing(log) && forall i :: n <= i < |log| ==> log[i].cursor > after
    ensures SplitsAt(log, after, k)
  {
    if n == 0 || log[n - 1].cursor <= after {
      k := n;
      assert forall i :: 0 <= i < n - 1 ==> log[i].cursor < log[n - 1].cursor;
    } else {
      k := SplitPoint(log, n - 1, after);
    }
  }

  lemma {:induction false} AfterNone(log: seq<Event>, n: nat, after: nat)
    requires n <= |log| && forall i :: 0 <= i < n ==> log[i].cursor <= after
    ensures After(log, n, after) == []
  {
    if n == 0 {
    } else {
      AfterNone(log, n - 1, after);
    }
  }

  lemma {:induction false} SliceGrows(log: seq<Event>, k: nat, n: nat)
    requires k <= n < |log|
    ensures log[k..n + 1] == log[k..n] + [log[n]]
  {
  }

  /** In an increasing log, the events after a cursor are a suffix of it. */
  lemma {:induction false} AfterIsSuffix(log: seq<Event>, n: nat, after: nat, k: nat)
    requires n <= |log| && SplitsAt(log, after, k)
    ensures After(log, n, after) == if n <= k then [] else log[k..n]
  {
    if n <= k {
      AfterNone(log, n, after);
    } else {
      AfterIsSuffix(log, n - 1, after, k);
      SliceGrows(log, k, n - 1);
      if n - 1 == k { assert log[k..k] == []; }
    }
  }

  /** A reader's events as a slice of the log. */
  lemma {:induction false} GotSlice(log: seq<Event>, reader: Reader) returns (k: nat)
    requires Increasing(log) && GotExactly(log, reader)
    ensures SplitsAt(log, reader.first, k) && k + |reader.got| <= |log|
    ensures reader.got == log[k..k + |reader.got|] && After(log, |log|, reader.first) == log[k..]
    ensures SplitsAt(log, reader.after, k + |reader.got|)
  {
    k := SplitPoint(log, |log|, reader.first);
    AfterIsSuffix(log, |log|, reader.first, k);
    var g := |reader.got|;
    assert reader.got == log[k..][..g];
    if g > 0 {
      assert reader.after == reader.got[g - 1].cursor == log[k + g - 1].cursor;
    }
  }

  /** What comes after the reader's cursor is what it still lacks of the events after its first. */
  lemma {:induction false} RestAfterGot(log: seq<Event>, reader: Reader)
    requires Increasing(log) && GotExactly(log, reader)
    ensures After(log, |log|, reader.first) == reader.got + After(log, |log|, reader.after)
  {
    var k := GotSlice(log, reader);
    var m := k + |reader.got|;
    AfterIsSuffix(log, |log|, reader.after, m);
    SliceJoin(log, k, m);
  }

  lemma {:induction false} SliceJoin(log: seq<Event>, k: nat, m: nat)
    requires k <= m <= |log|
    ensures log[k..] == log[k..m] + log[m..|log|] && (m == |log| ==> log[m..|log|] == [])
  {
  }

  lemma {:induction false} ReturnKeepsGot(log: seq<Event>, reader: Reader, limit: nat)
    requires Increasing(log) && GotExactly(log, reader)
    ensures var chunk := Take(After(log, |log|, reader.after), limit);
            GotExactly(log, Reader(reader.first, Newest(chunk, reader.after), reader.got + chunk))
  {
    RestAfterGot(log, reader);
    var rest := After(log, |log|, reader.after);
    var chunk := Take(rest, limit);
    assert rest == chunk + rest[|chunk|..];
    assert After(log, |log|, reader.first) == (reader.got + chunk) + rest[|chunk|..];
  }

  lemma {:induction false} InvStep(s: System, t: System)
    requires Inv(s) && Next(s, t)
    ensures Inv(t)
  {
    if e :| Higher(s.log, e) && t == s.(log := s.log + [e]) {
      forall r | 0 <= r < |t.readers| ensures GotExactly(t.log, t.readers[r]) {
        assert GotExactly(s.log, s.readers[r]);
        AfterGrows(s.log, e, |s.log|, t.readers[r].first);
      }
    } else if r: nat, limit: nat :| ReturnStep(s, t, r, limit) {
      assert GotExactly(s.log, s.readers[r]);
      ReturnKeepsGot(s.log, s.readers[r], limit);
      forall q | 0 <= q < |t.readers| ensures GotExactly(t.log, t.readers[q]) {
        assert GotExactly(s.log, s.readers[q]);
      }
    }
  }

  lemma {:induction false} InvAlways(run: seq<System>, n: nat)
    requires IsRun(run) && n < |run|
    ensures Inv(run[n])
  {
    if n == 0 {
    } else {
      InvAlways(run, n - 1);
      InvStep(run[n - 1], run[n]);
    }
  }

  /** In every interleaving of appends, reads, timeouts and the close: what a reader got, chunk after
      chunk, followed by what it would still get, is exactly the log after its first cursor, without a
      gap or a repeat. */
  lemma {:induction false} ReadersMissNothing(run: seq<System>, n: nat, r: nat)
    requires IsRun(run) && n < |run| && r < |run[n].readers|
    ensures var s := run[n];
            After(s.log, |s.log|, s.readers[r].first)
              == s.readers[r].got + After(s.log, |s.log|, s.readers[r].after)
  {
    InvAlways(run, n);
    RestAfterGot(run[n].log, run[n].readers[r]);
  }

  /** A chunk below the limit means the reader has caught up. */
  lemma {:induction false} ShortChunkIsCaughtUp(s: System, t: System, r: nat, limit: nat)
    requires Inv(s) && ReturnStep(s, t, r, limit)
    requires |t.readers[r].got| < |s.readers[r].got| + limit
    ensures t.readers[r].got == After(t.log, |t.log|, t.readers[r].first)
  {
    RestAfterGot(s.log, s.readers[r]);
  }

  // ---------- Revisions ----------

  lemma {:induction false} EmittedBetween(instruments: nat, i: nat, j: nat, entity: nat)
    requires instruments >= 1 && i < j && EntityOf(instruments, i) == entity
    requires forall k :: i < k < j ==> EntityOf(instruments, k) != entity
    ensures Emitted(instruments, j, entity) == Emitted(instruments, i, entity) + 1
  {
    if i + 1 < j { EmittedBetween(instruments, i, j - 1, entity); }
  }

  lemma {:induction false} ConsecutiveRevisions(log: seq<Event>, instruments: nat, reader: Reader, p: nat, q: nat)
    requires IsProduced(log, instruments) && GotExactly(log, reader)
    requires p < q < |reader.got| && reader.got[p].entity == reader.got[q].entity
    requires forall k :: p < k < q ==> reader.got[k].entity != reader.got[p].entity
    ensures reader.got[q].revision == reader.got[p].revision + 1
  {
    ProducedIncreases(log, instruments);
    var k := GotSlice(log, reader);
    var entity := reader.got[p].entity;
    assert forall i :: 0 <= i < |reader.got| ==> reader.got[i] == log[k + i] == Produced(instruments, k + i);
    forall x: nat | k + p < x < k + q ensures EntityOf(instruments, x) != entity {
      assert reader.got[x - k] == log[x];
    }
    EmittedBetween(instruments, k + p, k + q, entity);
  }

  lemma {:induction false} ProducedIncreases(log: seq<Event>, instruments: nat)
    requires IsProduced(log, instruments)
    ensures Increasing(log) && SplitsAt(log, 0, 0)
  {
    forall i | 0 <= i < |log| ensures log[i].cursor == i + 1 { assert log[i] == Produced(instruments, i); }
  }

  lemma {:induction false} FirstOfEntity(log: seq<Event>, instruments: nat, reader: Reader, p: nat)
    requires IsProduced(log, instruments) && GotExactly(log, reader) && reader.first == 0
    requires p < |reader.got| && forall k :: 0 <= k < p ==> reader.got[k].entity != reader.got[p].entity
    ensures reader.got[p].revision == 2
  {
    ProducedIncreases(log, instruments);
    AfterIsSuffix(log, |log|, 0, 0);
    var entity := reader.got[p].entity;
    assert forall i :: 0 <= i < |reader.got| ==> reader.got[i] == log[i];
    assert log[p] == Produced(instruments, p);
    forall k: nat | k < p ensures EntityOf(instruments, k) != entity {
      assert reader.got[k] == log[k] == Produced(instruments, k);
    }
    NoneEmitted(instruments, p, entity);
  }

  lemma {:induction false} NoneEmitted(instruments: nat, n: nat, entity: nat)
    requires instruments >= 1 && forall k :: 0 <= k < n ==> EntityOf(instruments, k) != entity
    ensures Emitted(instruments, n, entity) == 0
  {
    if n == 0 {
    } else {
      NoneEmitted(instruments, n - 1, entity);
    }
  }

  // ---------- The producer and its readers ----------

  /** The producer's `Emit`, as a step of the system. */
  ghost predicate EmitStep(s: System, t: System, instruments: nat)
    requires instruments >= 1
  {
    t == s.(log := s.log + [Produced(instruments, |s.log|)])
  }

  ghost predicate ProducerNext(s: System, t: System, instruments: nat)
    requires instruments >= 1
  {
    EmitStep(s, t, instruments) || CloseStep(s, t) || exists r: nat, limit: nat :: ReturnStep(s, t, r, limit)
  }

  /** Runs in which all events are the producer's. */
  ghost predicate IsProducerRun(run: seq<System>, instruments: nat) {
    && instruments >= 1 && |run| > 0 && Init(run[0])
    && forall i :: 0 <= i < |run| - 1 ==> ProducerNext(run[i], run[i + 1], instruments)
  }

  lemma {:induction false} EmitIsHigher(s: System, t: System, instruments: nat)
    requires IsProduced(s.log, instruments) && EmitStep(s, t, instruments)
    ensures IsProduced(t.log, instruments) && Next(s, t)
  {
    var e := Produced(instruments, |s.log|);
    forall i | 0 <= i < |s.log| ensures s.log[i].cursor < e.cursor { assert s.log[i] == Produced(instruments, i); }
    assert Higher(s.log, e) && t == s.(log := s.log + [e]);
  }

  /** In every such run the log is the producer's sequence, and every reader has got a part of it. */
  lemma {:induction false} ProducerInv(run: seq<System>, instruments: nat, n: nat)
    requires IsProducerRun(run, instruments) && n < |run|
    ensures IsProduced(run[n].log, instruments) && Inv(run[n])
  {
    if n == 0 {
    } else {
      ProducerInv(run, instruments, n - 1);
      assert ProducerNext(run[n - 1], run[n - 1 + 1], instruments);
      if EmitStep(run[n - 1], run[n], instruments) { EmitIsHigher(run[n - 1], run[n], instruments); }
      InvStep(run[n - 1], run[n]);
    }
  }

  /** In every interleaving of the producer and its readers: two events of one entity that a reader got, with
      none of it in between, carry consecutive revisions. */
  lemma {:induction false} RevisionsAreGapFree(run: seq<System>, instruments: nat, n: nat, r: nat, p: nat, q: nat)
    requires IsProducerRun(run, instruments) && n < |run| && r < |run[n].readers|
    requires var got := run[n].readers[r].got;
             && p < q < |got| && got[p].entity == got[q].entity
             && forall k :: p < k < q ==> got[k].entity != got[p].entity
    ensures run[n].readers[r].got[q].revision == run[n].readers[r].got[p].revision + 1
  {
    ProducerInv(run, instruments, n);
    ConsecutiveRevisions(run[n].log, instruments, run[n].readers[r], p, q);
  }

  lemma {:induction false} FirstStays(run: seq<System>, instruments: nat, n: nat, r: nat)
    requires IsProducerRun(run, instruments) && n < |run| && r < |run[n].readers|
    ensures r < |run[0].readers| && run[n].readers[r].first == run[0].readers[r].first
  {
    if n == 0 {
    } else {
      assert ProducerNext(run[n - 1], run[n - 1 + 1], instruments);
      FirstStays(run, instruments, n - 1, r);
    }
  }

  /** And a reader that started from cursor 0 sees every entity's revisions from 2 on. */
  lemma {:induction false} FirstRevisionIsTwo(run: seq<System>, instruments: nat, n: nat, r: nat, p: nat)
    requires IsProducerRun(run, instruments) && n < |run| && r < |run[n].readers| && r < |run[0].readers|
    requires run[0].readers[r].after == 0
    requires var got := run[n].readers[r].got;
             p < |got| && forall k :: 0 <= k < p ==> got[k].entity != got[p].entity
    ensures run[n].readers[r].got[p].revision == 2
  {
    ProducerInv(run, instruments, n);
    FirstStays(run, instruments, n, r);
    FirstOfEntity(run[n].log, instruments, run[n].readers[r], p);
  }
}
