/** Schedule entries (schedule/schedule.go:170-206). */
module Entries {
  import opened Groups

  /** A group and the instant at which one of its instances is to be terminated. */
  datatype Entry = Entry(group: Group, time: int)

  predicate EntryEqual(e: Entry, o: Entry) {
    Equal(e.group, o.group) && e.time == o.time
  }

  /** So a multiset of entries is the same whether Equal or the fields tell them apart. */
  lemma EntryEqualIffSame(e: Entry, o: Entry)
    ensures EntryEqual(e, o) <==> e == o
  {
    EqualIffSame(e.group, o.group);
  }
}
