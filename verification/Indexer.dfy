/**
 * Event ingestion: pages of a growing history, idempotent inserts, and a cursor
 * saved after each page, in a process that may die before any write.
 */
module Indexer {
  import opened Host

  /** `Foreign` events are unknown to the decoder or not persistable. */
  datatype Kind = Malformed | Foreign | Persistable

  /** `unique` is the secondary key of the event's table, such as its transaction and nonce. */
  datatype Event = Event(id: nat, unique: nat, kind: Kind)

  /** A page of the source; `next` is its cursor unless the source answered an empty one. */
  datatype Page = Page(events: seq<Event>, next: Option<nat>)

  datatype Store = Store(events: seq<Event>, cursor: Option<nat>)

  datatype Tally = Tally(pages: nat, fetched: nat, inserted: nat, duplicates: nat, ignored: nat, errors: nat)

  /** Either unique constraint already holds a row. */
  predicate Collides(s: Store, e: Event) {
    exists i :: 0 <= i < |s.events| && (s.events[i].id == e.id || s.events[i].unique == e.unique)
  }

  function Inserted(s: Store, e: Event): Store {
    if Collides(s, e) then s else s.(events := s.events + [e])
  }

  /** `budget`: how many more writes the process lives to make. */
  datatype Progress = Progress(store: Store, tally: Tally, budget: nat, alive: bool)

  function OneEvent(p: Progress, e: Event): Progress {
    match e.kind
    case Malformed => p.(tally := p.tally.(errors := p.tally.errors + 1))
    case Foreign => p.(tally := p.tally.(ignored := p.tally.ignored + 1))
    case Persistable =>
      if p.budget == 0 then p.(alive := false)
      else
        p.(store := Inserted(p.store, e), budget := p.budget - 1,
           tally := if Collides(p.store, e) then p.tally.(duplicates := p.tally.duplicates + 1)
                    else p.tally.(inserted := p.tally.inserted + 1))
  }

  function Events(p: Progress, es: seq<Event>): Progress
    decreases es
  {
    if es == [] || !p.alive then p else Events(OneEvent(p, es[0]), es[1..])
  }

  function SavedCursor(p: Progress, next: Option<nat>): Progress {
    if !p.alive || next.None? then p
    else if p.budget == 0 then p.(alive := false)
    else p.(store := p.store.(cursor := next), budget := p.budget - 1)
  }

  function OnePage(p: Progress, page: Page): Progress {
    var t := p.tally.(pages := p.tally.pages + 1, fetched := p.tally.fetched + |page.events|);
    SavedCursor(Events(p.(tally := t), page.events), page.next)
  }

  /** The page loop. A source that has no page left to answer with fails the poll. */
  function PageLoop(p: Progress, pages: seq<Page>, size: nat, left: nat): Progress
    decreases pages
  {
    if left == 0 || !p.alive then p
    else if pages == [] then p.(alive := false)
    else
      var q := OnePage(p, pages[0]);
      if !q.alive || |pages[0].events| < size then q else PageLoop(q, pages[1..], size, left - 1)
  }

  /** `ingestEvents`; `alive` in the result means that it returned. */
  function Ingested(s: Store, pages: seq<Page>, size: nat, maxPages: nat, budget: nat): Progress {
    PageLoop(Progress(s, Tally(0, 0, 0, 0, 0, 0), budget, true), pages, size, maxPages)
  }

  class EventIndexer {
    var events: seq<Event>
    var cursor: Option<nat>

    constructor ()
      ensures Contents() == Store([], None)
    {
      events, cursor := [], None;
    }

    function Contents(): Store
      reads this
    {
      Store(events, cursor)
    }

    /** `insertEvent`: false when a unique constraint refuses the row. */
    method InsertEvent(e: Event) returns (inserted: bool)
      modifies this
      ensures inserted <==> !Collides(old(Contents()), e)
      ensures Contents() == Inserted(old(Contents()), e)
      ensures cursor == old(cursor) && events == if inserted then old(events) + [e] else old(events)
    {
      for i := 0 to |events|
        invariant Contents() == old(Contents())
        invariant forall k :: 0 <= k < i ==> events[k].id != e.id && events[k].unique != e.unique
      {
        if events[i].id == e.id || events[i].unique == e.unique {
          return false;
        }
      }
      events := events + [e];
      return true;
    }

    /** The inner loop over the events of one page. */
    method IngestPage(page: seq<Event>, tally: Tally, budget: nat) returns (t: Tally, b: nat, alive: bool)
      modifies this
      ensures Progress(Contents(), t, b, alive) == Events(Progress(old(Contents()), tally, budget, true), page)
    {
      t, b := tally, budget;
      for i := 0 to |page|
        invariant Events(Progress(Contents(), t, b, true), page[i..])
          == Events(Progress(old(Contents()), tally, budget, true), page)
      {
        var e := page[i];
        assert page[i..][0] == e && page[i..][1..] == page[i + 1..];
        match e.kind {
          case Malformed =>
            t := t.(errors := t.errors + 1);
          case Foreign =>
            t := t.(ignored := t.ignored + 1);
          case Persistable =>
            if b == 0 {
              return t, b, false;
            }
            b := b - 1;
            var inserted := InsertEvent(e);
            if inserted {
              t := t.(inserted := t.inserted + 1);
            } else {
              t := t.(duplicates := t.duplicates + 1);
            }
        }
      }
      return t, b, true;
    }

    /** `pages` are the answers of the source, in the order they are asked for. */
    method IngestEvents(pages: seq<Page>, size: nat, maxPages: nat, budget: nat) returns (t: Tally, b: nat, alive: bool)
      modifies this
      ensures Progress(Contents(), t, b, alive) == Ingested(old(Contents()), pages, size, maxPages, budget)
    {
      t, b := Tally(0, 0, 0, 0, 0, 0), budget;
      for page := 0 to maxPages
        invariant page <= |pages|
        invariant PageLoop(Progress(Contents(), t, b, true), pages[page..], size, maxPages - page)
                  == Ingested(old(Contents()), pages, size, maxPages, budget)
      {
        if page == |pages| {
          return t, b, false;
        }
        var response := pages[page];
        assert pages[page..][0] == response && pages[page..][1..] == pages[page + 1..];
        t := t.(pages := t.pages + 1, fetched := t.fetched + |response.events|);
        t, b, alive := IngestPage(response.events, t, b);
        if !alive {
          return t, b, false;
        }
        if response.next.Some? {
          if b == 0 {
            return t, b, false;
          }
          cursor := response.next;
          b := b - 1;
        }
        if |response.events| < size {
          return t, b, true;
        }
      }
      return t, b, true;
    }
  }
}
