/** Runs of the indexer: polls of an honest source over a growing history, dying before any write. */
module IndexerRuns {
  import opened Host
  import opened Indexer

  type History = seq<Event>

  /** A page answers a position of the history with what follows it. */
  predicate Honest(h: History, at: nat, page: Page, size: nat) {
    && |page.events| <= size
    && at + |page.events| <= |h|
    && page.events == h[at..at + |page.events|]
    && (page.next.Some? ==> page.next.value == at + |page.events|)
  }

  /** Where the next page is asked for: the saved cursor, or the start of a cold run. */
  function Position(cursor: Option<nat>, start: nat): nat {
    if cursor.Some? then cursor.value else start
  }

  /** All pages of a poll are honest at the positions they are asked for. */
  ghost predicate HonestPages(h: History, cursor: Option<nat>, start: nat, pages: seq<Page>, size: nat)
    decreases pages
  {
    pages != [] ==>
      && Honest(h, Position(cursor, start), pages[0], size)
      && HonestPages(h, if pages[0].next.Some? then pages[0].next else cursor, start, pages[1..], size)
  }

  // ---------------------------------------------------------------- what was handed to the database

  /** The events of a page that reached `insertEvent`. */
  function OfferedByEvents(p: Progress, es: seq<Event>): set<Event>
    decreases es
  {
    if es == [] || !p.alive then {}
    else (if es[0].kind.Persistable? && p.budget > 0 then {es[0]} else {})
         + OfferedByEvents(OneEvent(p, es[0]), es[1..])
  }

  function Begun(p: Progress, page: Page): Progress {
    p.(tally := p.tally.(pages := p.tally.pages + 1, fetched := p.tally.fetched + |page.events|))
  }

  function OfferedByPages(p: Progress, pages: seq<Page>, size: nat, left: nat): set<Event>
    decreases pages
  {
    if left == 0 || !p.alive || pages == [] then {}
    else
      var q := OnePage(p, pages[0]);
      OfferedByEvents(Begun(p, pages[0]), pages[0].events)
      + if !q.alive || |pages[0].events| < size then {} else OfferedByPages(q, pages[1..], size, left - 1)
  }

  // ---------------------------------------------------------------- invariant

  predicate DistinctRows(es: seq<Event>) {
    forall i, j :: 0 <= i < j < |es| ==> es[i].id != es[j].id && es[i].unique != es[j].unique
  }

  /** The rows are offered events with keys of their own, and every offered event has a key that is taken. */
  ghost predicate Sound(h: History, s: Store, offered: set<Event>) {
    && DistinctRows(s.events)
    && (forall i :: 0 <= i < |s.events| ==> s.events[i] in offered)
    && (forall e :: e in offered ==> e in h && e.kind.Persistable? && Collides(s, e))
  }

  /** Every persistable event of a stretch of the history was offered. */
  ghost predicate Covered(h: History, offered: set<Event>, from: nat, to: nat) {
    to <= |h| && forall i :: from <= i < to && h[i].kind.Persistable? ==> h[i] in offered
  }

  lemma InsertKeepsSound(h: History, s: Store, offered: set<Event>, e: Event)
    requires Sound(h, s, offered) && e in h && e.kind.Persistable?
    ensures Sound(h, Inserted(s, e), offered + {e})
  {
    var t := Inserted(s, e);
    forall f | f in offered + {e} ensures Collides(t, f) {
      if f in offered {
        var k :| 0 <= k < |s.events| && (s.events[k].id == f.id || s.events[k].unique == f.unique);
        assert t.events[k] == s.events[k];
      } else if !Collides(s, e) {
        assert t.events[|s.events|] == e;
      }
    }
  }

  /** The events of one page, from any crash point. */
  lemma {:induction false} EventsKeep(h: History, p: Progress, offered: set<Event>, es: seq<Event>)
    requires Sound(h, p.store, offered) && forall i :: 0 <= i < |es| ==> es[i] in h
    ensures var q, o := Events(p, es), offered + OfferedByEvents(p, es);
            && Sound(h, q.store, o) && q.store.cursor == p.store.cursor
            && (q.alive ==> p.alive && forall i :: 0 <= i < |es| && es[i].kind.Persistable? ==> es[i] in o)
    decreases es
  {
    hide Sound;
    assert offered + {} == offered;
    if es != [] && p.alive {
      var o := offered + if es[0].kind.Persistable? && p.budget > 0 then {es[0]} else {};
      if es[0].kind.Persistable? && p.budget > 0 {
        InsertKeepsSound(h, p.store, offered, es[0]);
      }
      var q, rest := OneEvent(p, es[0]), es[1..];
      assert forall i :: 0 <= i < |rest| ==> rest[i] == es[i + 1];
      EventsKeep(h, q, o, rest);
      assert o + OfferedByEvents(q, rest) == offered + OfferedByEvents(p, es);
    }
  }

  /** Invariant of the store, given where its coverage starts. */
  ghost predicate Inv(h: History, s: Store, offered: set<Event>, from: nat) {
    && Sound(h, s, offered)
    && (s.cursor.Some? ==> from <= s.cursor.value && Covered(h, offered, from, s.cursor.value))
  }

  /** The start of coverage after a poll: a cold run that saves a cursor starts it anew. */
  function FromAfter(before: Store, after: Store, from: nat, start: nat): nat {
    if before.cursor.None? && after.cursor.Some? then start else from
  }

  /** The events of an honest page extend coverage from its position to its end. */
  lemma PageExtendsCover(h: History, before: set<Event>, offered: set<Event>, page: Page, from: nat, at: nat, size: nat)
    requires Honest(h, at, page, size) && before <= offered
    requires from <= at && (from < at ==> Covered(h, before, from, at))
    requires forall i :: 0 <= i < |page.events| && page.events[i].kind.Persistable? ==> page.events[i] in offered
    ensures Covered(h, offered, from, at + |page.events|)
  {
    forall i | from <= i < at + |page.events| && h[i].kind.Persistable? ensures h[i] in offered {
      if i >= at {
        assert page.events[i - at] == h[i];
      }
    }
  }

  lemma PageKeeps(h: History, p: Progress, offered: set<Event>, page: Page, from: nat, start: nat, size: nat)
    requires Inv(h, p.store, offered, from) && Honest(h, Position(p.store.cursor, start), page, size) && p.alive
    ensures var q, o := OnePage(p, page), offered + OfferedByEvents(Begun(p, page), page.events);
            && Inv(h, q.store, o, FromAfter(p.store, q.store, from, start))
            && (q.alive ==> q.store.cursor == if page.next.Some? then page.next else p.store.cursor)
            && (q.store.cursor == p.store.cursor || q.store.cursor == page.next)
            && (p.store.cursor.Some? ==> q.store.cursor.Some?)
  {
    hide Sound, Events, OfferedByEvents;
    var at := Position(p.store.cursor, start);
    assert forall i :: 0 <= i < |page.events| ==> page.events[i] in h by {
      assert forall i :: 0 <= i < |page.events| ==> page.events[i] == h[at + i];
    }
    EventsKeep(h, Begun(p, page), offered, page.events);
    var e, o := Events(Begun(p, page), page.events), offered + OfferedByEvents(Begun(p, page), page.events);
    var q := OnePage(p, page);
    SameRowsStaySound(h, e.store, q.store, o);
    if e.alive && page.next.Some? {
      PageExtendsCover(h, offered, o, page, if p.store.cursor.Some? then from else start, at, size);
    }
  }

  lemma SameRowsStaySound(h: History, s: Store, t: Store, offered: set<Event>)
    requires t.events == s.events && Sound(h, s, offered)
    ensures Sound(h, t, offered)
  {
    forall e | e in offered ensures Collides(t, e) {
      assert Collides(s, e);
    }
  }

  /** From any crash point of a poll: rows, coverage and the saved cursor stay sound. */
  lemma {:induction false} LoopKeeps(h: History, p: Progress, offered: set<Event>, pages: seq<Page>, size: nat,
                                     left: nat, from: nat, start: nat)
    requires Inv(h, p.store, offered, from) && HonestPages(h, p.store.cursor, start, pages, size)
    ensures var q := PageLoop(p, pages, size, left);
            && Inv(h, q.store, offered + OfferedByPages(p, pages, size, left), FromAfter(p.store, q.store, from, start))
            && (p.store.cursor.Some? ==> q.store.cursor.Some?)
    decreases pages
  {
    hide Inv;
    assert offered + {} == offered;
    if left > 0 && p.alive && pages != [] {
      PageKeeps(h, p, offered, pages[0], from, start, size);
      var q := OnePage(p, pages[0]);
      var o := offered + OfferedByEvents(Begun(p, pages[0]), pages[0].events);
      if q.alive && |pages[0].events| >= size {
        LoopKeeps(h, q, o, pages[1..], size, left - 1, FromAfter(p.store, q.store, from, start), start);
        assert o + OfferedByPages(q, pages[1..], size, left - 1) == offered + OfferedByPages(p, pages, size, left);
      } else {
        assert o == offered + OfferedByPages(p, pages, size, left);
      }
    }
  }

  // ---------------------------------------------------------------- runs

  datatype Step =
    | Grow(events: seq<Event>)
    | Poll(start: nat, pages: seq<Page>, size: nat, maxPages: nat, budget: nat)

  /** `offered` records, outside the program, what reached `insertEvent` so far. */
  datatype World = World(history: History, store: Store, from: nat, offered: set<Event>)

  function Fresh(s: Store, budget: nat): Progress {
    Progress(s, Tally(0, 0, 0, 0, 0, 0), budget, true)
  }

  function Stepped(w: World, s: Step): World {
    match s
    case Grow(events) => w.(history := w.history + events)
    case Poll(start, pages, size, maxPages, budget) =>
      var store := Ingested(w.store, pages, size, maxPages, budget).store;
      w.(store := store, from := FromAfter(w.store, store, w.from, start),
         offered := w.offered + OfferedByPages(Fresh(w.store, budget), pages, size, maxPages))
  }

  function Run(w: World, ss: seq<Step>): World
    decreases ss
  {
    if ss == [] then w else Run(Stepped(w, ss[0]), ss[1..])
  }

  /** Nothing stored and nothing offered yet. */
  function Cold(h: History, start: nat): World {
    World(h, Store([], None), start, {})
  }

  ghost predicate HonestRun(w: World, ss: seq<Step>)
    decreases ss
  {
    ss != [] ==>
      && (ss[0].Poll? ==> HonestPages(w.history, w.store.cursor, ss[0].start, ss[0].pages, ss[0].size))
      && HonestRun(Stepped(w, ss[0]), ss[1..])
  }

  ghost predicate WorldOk(w: World) {
    Inv(w.history, w.store, w.offered, w.from)
  }

  lemma {:induction false} RunKeepsInv(w: World, ss: seq<Step>)
    requires WorldOk(w) && HonestRun(w, ss)
    ensures WorldOk(Run(w, ss))
    decreases ss
  {
    if ss != [] {
      match ss[0] {
        case Grow(events) =>
          assert forall i :: 0 <= i < |w.history| ==> (w.history + events)[i] == w.history[i];
        case Poll(start, pages, size, maxPages, budget) =>
          LoopKeeps(w.history, Fresh(w.store, budget), w.offered, pages, size, maxPages, w.from, start);
      }
      RunKeepsInv(Stepped(w, ss[0]), ss[1..]);
    }
  }

  // ---------------------------------------------------------------- exactly once

  predicate ShareAKey(e: Event, f: Event) {
    e.id == f.id || e.unique == f.unique
  }

  /** No two different events share an id or the secondary key of their table. */
  ghost predicate Apart(es: set<Event>) {
    forall e, f :: e in es && f in es && e != f ==> !ShareAKey(e, f)
  }

  lemma StoredIffApart(h: History, s: Store, offered: set<Event>)
    requires Sound(h, s, offered)
    ensures (forall e :: e in offered ==> e in s.events) <==> Apart(offered)
  {
    if Apart(offered) {
      forall e | e in offered ensures e in s.events {
        assert Collides(s, e);
        var k :| 0 <= k < |s.events| && (s.events[k].id == e.id || s.events[k].unique == e.unique);
        assert s.events[k] in offered && ShareAKey(s.events[k], e);
      }
    }
    if forall e :: e in offered ==> e in s.events {
      forall e, f | e in offered && f in offered && e != f ensures !ShareAKey(e, f) {
        RowsAreApart(s, e, f);
      }
    }
  }

  lemma RowsAreApart(s: Store, e: Event, f: Event)
    requires DistinctRows(s.events) && e in s.events && f in s.events && e != f
    ensures !ShareAKey(e, f)
  {
    var i :| 0 <= i < |s.events| && s.events[i] == e;
    var j :| 0 <= j < |s.events| && s.events[j] == f;
  }

  /**
   * For any schedule of polls, crashes before any insert or cursor save, and
   * history growing in between: no row is stored twice, nothing is stored that is
   * not a persistable event of the history, every persistable event before the
   * saved cursor was offered, and all that was offered is stored if and only if
   * no two different offered events share an id or a secondary key.
   */
  lemma {:induction false} ExactlyOnceIffApart(start: nat, h: History, ss: seq<Step>)
    requires HonestRun(Cold(h, start), ss)
    ensures var w := Run(Cold(h, start), ss);
            && DistinctRows(w.store.events)
            && (forall i :: 0 <= i < |w.store.events| ==> w.store.events[i] in w.offered)
            && (forall e :: e in w.offered ==> e in w.history && e.kind.Persistable?)
            && (w.store.cursor.Some? ==> Covered(w.history, w.offered, w.from, w.store.cursor.value))
            && ((forall e :: e in w.offered ==> e in w.store.events) <==> Apart(w.offered))
  {
    RunKeepsInv(Cold(h, start), ss);
    var w := Run(Cold(h, start), ss);
    StoredIffApart(w.history, w.store, w.offered);
  }

  ghost predicate PersistableApart(h: History) {
    forall e, f :: e in h && f in h && e.kind.Persistable? && f.kind.Persistable? && e != f ==> !ShareAKey(e, f)
  }

  /**
   * In particular, when the persistable events of the history have keys of their own,
   * each of them before the cursor is stored, once.
   */
  lemma {:induction false} ExactlyOnceUnderCrashes(start: nat, h: History, ss: seq<Step>)
    requires HonestRun(Cold(h, start), ss) && PersistableApart(Run(Cold(h, start), ss).history)
    ensures var w := Run(Cold(h, start), ss);
            && DistinctRows(w.store.events)
            && (w.store.cursor.Some? ==>
                  && w.store.cursor.value <= |w.history|
                  && forall i :: w.from <= i < w.store.cursor.value && w.history[i].kind.Persistable?
                       ==> w.history[i] in w.store.events)
  {
    ExactlyOnceIffApart(start, h, ss);
    var w := Run(Cold(h, start), ss);
    forall e, f | e in w.offered && f in w.offered && e != f ensures !ShareAKey(e, f) {
      assert e in w.history && f in w.history;
    }
  }

  /**
   * Of every two different offered events that share a key, such as two unwraps of one
   * transaction, at most one is ever stored.
   */
  lemma {:induction false} CollidingEventIsDropped(start: nat, h: History, ss: seq<Step>, e: Event, f: Event)
    requires HonestRun(Cold(h, start), ss)
    requires var w := Run(Cold(h, start), ss);
             e in w.offered && f in w.offered && e != f && ShareAKey(e, f)
    ensures var w := Run(Cold(h, start), ss);
            !(e in w.store.events && f in w.store.events)
  {
    ExactlyOnceIffApart(start, h, ss);
    var w := Run(Cold(h, start), ss);
    if e in w.store.events && f in w.store.events {
      RowsAreApart(w.store, e, f);
    }
  }

  /** One page with such a pair: the second is counted as a duplicate and the cursor passes it. */
  lemma SecondOfAPairIsPassed(e: Event, f: Event)
    requires e.kind.Persistable? && f.kind.Persistable? && ShareAKey(e, f)
    ensures var p := Ingested(Store([], None), [Page([e, f], Some(2))], 200, 20, 3);
            p.alive && p.store == Store([e], Some(2)) && p.tally.inserted == 1 && p.tally.duplicates == 1
  {
    var p0 := Progress(Store([], None), Tally(1, 2, 0, 0, 0, 0), 3, true);
    assert [e, f][1..] == [f] && [f][1..] == [];
    var p1 := OneEvent(p0, e);
    assert p1.store == Store([e], None);
    var p2 := OneEvent(p1, f);
    assert Collides(p1.store, f) by {
      assert ShareAKey(p1.store.events[0], f);
    }
    assert Events(p2, []) == p2;
    assert Events(p1, [f]) == p2;
    assert Events(p0, [e, f]) == p2;
  }

  // ---------------------------------------------------------------- counters

  predicate Balanced(t: Tally, pending: int) {
    t.fetched == t.inserted + t.duplicates + t.ignored + t.errors + pending
  }

  lemma {:induction false} EventsBalance(p: Progress, es: seq<Event>)
    requires Balanced(p.tally, |es|)
    ensures Events(p, es).alive ==> Balanced(Events(p, es).tally, 0)
    decreases es
  {
    if es != [] && p.alive {
      var q := OneEvent(p, es[0]);
      if q.alive {
        EventsBalance(q, es[1..]);
      } else {
        assert Events(q, es[1..]) == q;
      }
    }
  }

  lemma {:induction false} PagesBalance(p: Progress, pages: seq<Page>, size: nat, left: nat)
    requires Balanced(p.tally, 0)
    ensures PageLoop(p, pages, size, left).alive ==> Balanced(PageLoop(p, pages, size, left).tally, 0)
    decreases pages
  {
    if left > 0 && p.alive && pages != [] {
      EventsBalance(Begun(p, pages[0]), pages[0].events);
      var q := OnePage(p, pages[0]);
      if q.alive && |pages[0].events| >= size {
        PagesBalance(q, pages[1..], size, left - 1);
      }
    }
  }

  /** A poll that returns has accounted for every event it fetched, whatever the store held and the source answered. */
  lemma {:induction false} FetchedIsAccountedFor(s: Store, pages: seq<Page>, size: nat, maxPages: nat, budget: nat)
    ensures var p := Ingested(s, pages, size, maxPages, budget);
            p.alive ==> p.tally.fetched == p.tally.inserted + p.tally.duplicates + p.tally.ignored + p.tally.errors
  {
    PagesBalance(Fresh(s, budget), pages, size, maxPages);
  }

  function Count(es: seq<Event>, kind: Kind): nat {
    if es == [] then 0 else (if es[0].kind == kind then 1 else 0) + Count(es[1..], kind)
  }

  lemma {:induction false} CountAppends(es: seq<Event>, fs: seq<Event>, kind: Kind)
    ensures Count(es + fs, kind) == Count(es, kind) + Count(fs, kind)
    decreases es
  {
    if es == [] {
      assert es + fs == fs;
    } else {
      assert (es + fs)[1..] == es[1..] + fs;
      CountAppends(es[1..], fs, kind);
    }
  }

  function EventsOf(pages: seq<Page>): seq<Event> {
    if pages == [] then [] else pages[0].events + EventsOf(pages[1..])
  }

  /** The cursor after pages with these answers: the last one given. */
  function CursorAfter(pages: seq<Page>, cursor: Option<nat>): Option<nat> {
    if pages == [] then cursor
    else CursorAfter(pages[1..], if pages[0].next.Some? then pages[0].next else cursor)
  }

  /** Between `p` and `q` the events `es` were handled, each counted by its kind, and rows were only added. */
  predicate Handled(p: Progress, q: Progress, es: seq<Event>) {
    && q.tally.errors == p.tally.errors + Count(es, Malformed)
    && q.tally.ignored == p.tally.ignored + Count(es, Foreign)
    && q.tally.inserted + q.tally.duplicates == p.tally.inserted + p.tally.duplicates + Count(es, Persistable)
    && p.store.events <= q.store.events
    && q.tally.inserted - p.tally.inserted == |q.store.events| - |p.store.events|
  }

  lemma {:induction false} EventsAreHandled(p: Progress, es: seq<Event>)
    requires Events(p, es).alive
    ensures Handled(p, Events(p, es), es)
    ensures p.alive && Events(p, es).tally.pages == p.tally.pages && Events(p, es).tally.fetched == p.tally.fetched
    ensures Events(p, es).store.cursor == p.store.cursor
    decreases es
  {
    if es != [] && p.alive {
      EventsAreHandled(OneEvent(p, es[0]), es[1..]);
    }
  }

  lemma HandledTwice(p: Progress, q: Progress, r: Progress, es: seq<Event>, fs: seq<Event>)
    requires Handled(p, q, es) && Handled(q, r, fs)
    ensures Handled(p, r, es + fs)
  {
    CountAppends(es, fs, Malformed);
    CountAppends(es, fs, Foreign);
    CountAppends(es, fs, Persistable);
  }

  lemma PageIsHandled(p: Progress, page: Page)
    requires p.alive && OnePage(p, page).alive
    ensures Handled(p, OnePage(p, page), page.events)
    ensures OnePage(p, page).tally.pages == p.tally.pages + 1
    ensures OnePage(p, page).tally.fetched == p.tally.fetched + |page.events|
    ensures OnePage(p, page).store.cursor == if page.next.Some? then page.next else p.store.cursor
  {
    EventsAreHandled(Begun(p, page), page.events);
  }

  /** `n` pages were read: full ones, but for the last if fewer than `left` were read. */
  predicate ReadUntilShort(pages: seq<Page>, n: nat, size: nat, left: nat) {
    && n <= |pages| && n <= left
    && (forall i :: 0 <= i < n - 1 ==> |pages[i].events| >= size)
    && (n < left ==> n > 0 && |pages[n - 1].events| < size)
  }

  lemma ReadShort(pages: seq<Page>, size: nat, left: nat)
    requires pages != [] && left > 0 && |pages[0].events| < size
    ensures ReadUntilShort(pages, 1, size, left)
  {
  }

  lemma ReadOneMore(pages: seq<Page>, n: nat, size: nat, left: nat)
    requires pages != [] && left > 0 && n > 0 && |pages[0].events| >= size
    requires ReadUntilShort(pages[1..], n - 1, size, left - 1)
    ensures ReadUntilShort(pages, n, size, left)
  {
    forall i | 0 <= i < n - 1 ensures |pages[i].events| >= size {
      if i > 0 {
        assert pages[1..][i - 1] == pages[i];
      }
    }
  }

  lemma {:induction false} PagesAreHandled(p: Progress, pages: seq<Page>, size: nat, left: nat)
    requires p.alive && PageLoop(p, pages, size, left).alive
    ensures var q := PageLoop(p, pages, size, left);
            && q.tally.pages >= p.tally.pages
            && var n := q.tally.pages - p.tally.pages;
            && ReadUntilShort(pages, n, size, left)
            && Handled(p, q, EventsOf(pages[..n]))
            && q.tally.fetched == p.tally.fetched + |EventsOf(pages[..n])|
            && q.store.cursor == CursorAfter(pages[..n], p.store.cursor)
    decreases pages
  {
    if left == 0 {
      assert pages[..0] == [] && ReadUntilShort(pages, 0, size, 0);
    } else {
      hide OnePage, Handled, ReadUntilShort;
      PageIsHandled(p, pages[0]);
      var q := OnePage(p, pages[0]);
      var r := PageLoop(p, pages, size, left);
      var n := r.tally.pages - p.tally.pages;
      if |pages[0].events| >= size {
        PagesAreHandled(q, pages[1..], size, left - 1);
        assert pages[..n][0] == pages[0] && pages[..n][1..] == pages[1..][..n - 1];
        HandledTwice(p, q, r, pages[0].events, EventsOf(pages[1..][..n - 1]));
        ReadOneMore(pages, n, size, left);
      } else {
        assert pages[..1] == [pages[0]] && pages[..1][1..] == [];
        assert EventsOf(pages[..1]) == pages[0].events + [] == pages[0].events;
        ReadShort(pages, size, left);
      }
    }
  }

  /**
   * What the counters of a poll that returned mean: it read full pages up to its
   * limit or to the first short one; `errors` are the malformed events on them,
   * `ignored` the foreign ones, `inserted` is by how much the store grew, and the
   * other persistable ones are the duplicates. The cursor is the last one given.
   */
  lemma {:induction false} CountersMeanWhatTheySay(s: Store, pages: seq<Page>, size: nat, maxPages: nat, budget: nat)
    requires Ingested(s, pages, size, maxPages, budget).alive
    ensures var p := Ingested(s, pages, size, maxPages, budget);
            && ReadUntilShort(pages, p.tally.pages, size, maxPages)
            && var es := EventsOf(pages[..p.tally.pages]);
            && p.tally.fetched == |es|
            && p.tally.errors == Count(es, Malformed) && p.tally.ignored == Count(es, Foreign)
            && p.tally.inserted + p.tally.duplicates == Count(es, Persistable)
            && s.events <= p.store.events && p.tally.inserted == |p.store.events| - |s.events|
            && p.store.cursor == CursorAfter(pages[..p.tally.pages], s.cursor)
  {
    PagesAreHandled(Fresh(s, budget), pages, size, maxPages);
  }

  // ---------------------------------------------------------------- catching up

  /** The answers of a source that fills its pages and always gives a cursor. */
  function Served(h: History, at: nat, size: nat, n: nat): seq<Page>
    requires at <= |h|
    decreases n
  {
    if n == 0 then []
    else
      var to := if at + size <= |h| then at + size else |h|;
      [Page(h[at..to], Some(to))] + Served(h, to, size, n - 1)
  }

  lemma {:induction false} EventsSpend(p: Progress, es: seq<Event>)
    requires p.alive && p.budget >= |es|
    ensures Events(p, es).alive && Events(p, es).budget >= p.budget - |es|
    decreases es
  {
    if es != [] {
      EventsSpend(OneEvent(p, es[0]), es[1..]);
    }
  }

  /** One served page is read and its cursor saved. */
  lemma ServedPageIsRead(p: Progress, page: Page, size: nat)
    requires p.alive && |page.events| <= size && page.next.Some? && p.budget >= size + 1
    ensures var q := OnePage(p, page);
            q.alive && q.store.cursor == page.next && q.budget >= p.budget - size - 1
  {
    EventsSpend(Begun(p, page), page.events);
    hide Events;
  }

  lemma ServedFirst(h: History, at: nat, size: nat, n: nat)
    requires at <= |h| && n > 0
    ensures var to := if at + size <= |h| then at + size else |h|;
            && Served(h, at, size, n) != []
            && Served(h, at, size, n)[0] == Page(h[at..to], Some(to))
            && Served(h, at, size, n)[1..] == Served(h, to, size, n - 1)
  {
  }

  /** A poll that lives long enough moves the cursor by as many full pages as it may fetch, or to the end. */
  lemma {:induction false} UndisturbedPollCatchesUp(h: History, p: Progress, at: nat, size: nat, n: nat)
    requires at <= |h| && size > 0 && n > 0
    requires p.alive && p.budget >= n * (size + 1)
    ensures var q := PageLoop(p, Served(h, at, size, n), size, n);
            q.alive && q.store.cursor == Some(if at + n * size <= |h| then at + n * size else |h|)
    decreases n
  {
    var pages := Served(h, at, size, n);
    ServedFirst(h, at, size, n);
    var to := pages[0].next.value;
    assert n * (size + 1) == (n - 1) * (size + 1) + size + 1;
    assert n * size == (n - 1) * size + size;
    assert (n - 1) * size >= 0 && (n - 1) * (size + 1) >= 0;
    ServedPageIsRead(p, pages[0], size);
    var q := OnePage(p, pages[0]);
    hide OnePage, Served;
    if |pages[0].events| == size && n > 1 {
      UndisturbedPollCatchesUp(h, q, to, size, n - 1);
    }
  }
}
