/** The pins that keep a snapshot in place while something reads it (internal/storage/exports.go). */
module Pins {

  class ExportPins {
    var counts: map<string, int>
    // The readers that hold a pin right now, one entry each.
    ghost var readers: multiset<string>

    // The counts are the readers, and only pinned snapshots have an entry.
    ghost predicate Valid()
      reads this
    {
      forall id :: Count(id) == readers[id] && (id in counts ==> counts[id] > 0)
    }

    constructor ()
      ensures Valid() && readers == multiset{}
    {
      counts, readers := map[], multiset{};
    }

    function Count(id: string): int
      reads this
    {
      if id in counts then counts[id] else 0
    }

    method Acquire(id: string) returns (first: bool)
      requires Valid()
      modifies this
      ensures Valid() && readers == old(readers) + multiset{id}
      ensures first <==> id !in old(readers)
    {
      counts, readers := counts[id := Count(id) + 1], readers + multiset{id};
      first := Count(id) == 1;
    }

    // Releasing what nobody holds changes nothing.
    method Release(id: string) returns (last: bool)
      requires Valid()
      modifies this
      ensures Valid() && readers == old(readers) - multiset{id}
      ensures last <==> id !in readers
    {
      var left := Count(id) - 1;
      counts, readers := counts[id := left], readers - multiset{id};
      last := left <= 0;
      if last {
        counts := counts - {id};
      }
    }

    method Pinned(id: string) returns (pinned: bool)
      requires Valid()
      ensures pinned <==> id in readers
    {
      pinned := Count(id) > 0;
    }
  }
}
