/** The double-buffered table cell (answer_table.rs) as an object. Generations are counted without wrap-around. */
module AnswerTableCell {
  import opened Wrappers
  import opened AnswerTable

  // ---- The object ----

  class TableCopy {
    var generation: nat
    var accountsFor: nat
    var publishedTick: nat
    var shortAddress: bv8
    var groups: bv32
    const entries: array<bv32>

    ghost function View(): Image
      reads this, entries
    {
      Image(accountsFor, publishedTick, shortAddress, groups, entries[..])
    }

    constructor ()
      ensures fresh(entries) && entries.Length == ANSWER_ENTRIES && generation == 0
    {
      generation, accountsFor, publishedTick, shortAddress, groups := 0, 0, 0, NO_SHORT_ADDRESS, 0;
      entries := new bv32[ANSWER_ENTRIES](_ => 0);
    }

    method Write(image: Image)
      requires entries.Length == ANSWER_ENTRIES && ImageOk(image)
      modifies this, entries
      ensures View() == image && generation == old(generation) + 2
    {
      var before := generation;
      generation := before + 1;
      accountsFor := image.accountsFor;
      publishedTick := image.publishedTick;
      shortAddress := image.shortAddress;
      groups := image.groups;
      for i := 0 to ANSWER_ENTRIES
        invariant entries[..i] == image.entries[..i]
        invariant accountsFor == image.accountsFor && publishedTick == image.publishedTick
        invariant shortAddress == image.shortAddress && groups == image.groups
      {
        entries[i] := image.entries[i];
      }
      assert entries[..] == entries[..ANSWER_ENTRIES] == image.entries;
      generation := before + 2;
    }

    /** With nobody writing meanwhile, a read is whole. */
    method Read(q: Query) returns (r: Option<LiveRead>)
      requires entries.Length == ANSWER_ENTRIES
      ensures r.None? <==> generation == 0
      ensures r.Some? ==> WholeOf(r.value, View(), q) && r.value.torn == (generation % 2 == 1)
    {
      var before := generation;
      if before == 0 {
        return None;
      }
      var accounts, tick, short, g := accountsFor, publishedTick, shortAddress, groups;
      var index := EntryIndex(q, short, g);
      var word: bv32 := if index.Some? then entries[index.value] else 0;
      var torn := !(before % 2 == 0 && generation == before);
      r := Some(LiveRead(torn, accounts, tick, short, index, word));
    }
  }

  class Cell {
    var live: nat
    const copies: seq<TableCopy>
    var leaseUntil: nat
    ghost var last: Option<Image>

    ghost predicate Valid()
      reads this, copies, set c | c in copies :: c.entries
    {
      && |copies| == 2 && copies[0] != copies[1] && copies[0].entries != copies[1].entries && live < 2
      && (forall i | 0 <= i < 2 :: copies[i].entries.Length == ANSWER_ENTRIES && copies[i].generation % 2 == 0)
      && (last.Some? ==> copies[live].generation > 0 && copies[live].View() == last.value && ImageOk(last.value))
      && (last.None? ==> copies[live].generation == 0)
    }

    constructor ()
      ensures Valid() && last == None && fresh(copies) && fresh(set c | c in copies :: c.entries)
    {
      var a := new TableCopy();
      var b := new TableCopy();
      copies := [a, b];
      live, leaseUntil, last := 0, 0, None;
    }

    method Publish(image: Image)
      requires Valid() && ImageOk(image)
      modifies this, copies, set c | c in copies :: c.entries
      ensures Valid() && last == Some(image) && leaseUntil == old(leaseUntil)
    {
      var next := 1 - live;
      var copy := copies[next];
      copy.Write(image);
      live := next;
      last := Some(image);
    }

    method SetLeaseForMs(now: nat, remainingMs: nat)
      requires Valid()
      modifies this`leaseUntil
      ensures Valid() && leaseUntil == LeaseUntil(now, remainingMs)
    {
      leaseUntil := LeaseUntil(now, remainingMs);
    }

    /** Between publishes the table answers what the last one says, and nothing before the first. */
    method Answers(q: Query, previous: nat, now: nat) returns (a: Option<bv8>)
      requires Valid()
      ensures a == if last.Some? then Says(last.value, q, previous, now, LeaseAlive(leaseUntil, now)) else None
    {
      hide EntryAnswer, EntryIndex, TickDiff, Says;
      var copy := copies[live];
      var read := copy.Read(q);
      var alive := LeaseAlive(leaseUntil, now);
      var decided := Decide(read, q, previous, now, alive);
      if read.Some? {
        ghost var said := Says(last.value, q, previous, now, alive);
        if said.Some? {
          WholeReadAnswers(read.value, last.value, q, previous, now, alive, said.value);
        }
        if decided.Answer? {
          WholeReadAnswers(read.value, last.value, q, previous, now, alive, decided.value);
        }
      }
      a := if decided.Answer? then Some(decided.value) else None;
    }
  }
}
