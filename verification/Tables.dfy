/** The dynamic table: a queue of header fields, newest first, kept within a size in bytes. */
module Tables {
  import opened Bytes

  datatype HeaderField = HeaderField(name: seq<byte>, value: seq<byte>) {
    /** The size for table accounting, section 4.1 of RFC 7541. */
    function Size(): nat {
      |name| + |value| + 32
    }
  }

  function TotalSize(s: seq<HeaderField>): nat {
    if s == [] then 0 else s[0].Size() + TotalSize(s[1..])
  }

  /** The longest prefix of `s` whose total size is at most `max`. */
  function Fit(s: seq<HeaderField>, max: nat): (r: seq<HeaderField>)
    ensures r <= s && TotalSize(r) <= max
  {
    if s == [] || s[0].Size() > max then []
    else
      var r := [s[0]] + Fit(s[1..], max - s[0].Size());
      assert r[1..] == Fit(s[1..], max - s[0].Size());
      r
  }

  lemma {:induction false} FitIsLongest(s: seq<HeaderField>, max: nat, p: seq<HeaderField>)
    requires p <= s && TotalSize(p) <= max
    ensures p <= Fit(s, max)
  {
    if p != [] {
      FitIsLongest(s[1..], max - s[0].Size(), p[1..]);
      assert p == [p[0]] + p[1..];
    }
  }

  lemma {:induction false} TotalSizePush(s: seq<HeaderField>, f: HeaderField)
    ensures TotalSize(s + [f]) == TotalSize(s) + f.Size()
  {
    if s == [] {
      assert [] + [f] == [f] && [f][1..] == [];
    } else {
      TotalSizePush(s[1..], f);
      assert (s + [f])[1..] == s[1..] + [f];
    }
  }

  lemma TotalSizeFront(f: HeaderField, s: seq<HeaderField>)
    ensures TotalSize([f] + s) == f.Size() + TotalSize(s)
  {
    assert ([f] + s)[1..] == s;
  }

  lemma {:induction false} TotalSizePrefix(p: seq<HeaderField>, s: seq<HeaderField>)
    requires p <= s
    ensures TotalSize(p) <= TotalSize(s)
  {
    if p != [] {
      TotalSizePrefix(p[1..], s[1..]);
    }
  }

  /** Every entry takes at least 32 bytes. */
  lemma {:induction false} EntriesBounded(s: seq<HeaderField>)
    ensures 32 * |s| <= TotalSize(s)
  {
    if s != [] {
      EntriesBounded(s[1..]);
    }
  }

  lemma FitAll(s: seq<HeaderField>, max: nat)
    requires TotalSize(s) <= max
    ensures Fit(s, max) == s
  {
    FitIsLongest(s, max, s);
  }

  /** Evicting the oldest entry of a sequence that does not fit loses nothing that fits. */
  lemma FitDropLast(s: seq<HeaderField>, max: nat)
    requires s != [] && TotalSize(s) > max
    ensures Fit(s[..|s| - 1], max) == Fit(s, max)
  {
    var init, r := s[..|s| - 1], Fit(s, max);
    assert |r| == |s| ==> r == s;
    assert r <= init;
    FitIsLongest(init, max, r);
    FitIsLongest(s, max, Fit(init, max));
  }

  /** Fitting is monotone in the entries and in the size. */
  lemma FitMonotone(p: seq<HeaderField>, s: seq<HeaderField>, m: nat, n: nat)
    requires p <= s && m <= n
    ensures Fit(p, m) <= Fit(s, n)
  {
    FitIsLongest(s, n, Fit(p, m));
  }

  lemma FitTwice(s: seq<HeaderField>, m: nat, n: nat)
    ensures Fit(Fit(s, m), n) == Fit(s, if m < n then m else n)
  {
    var least := if m < n then m else n;
    TotalSizePrefix(Fit(Fit(s, m), n), Fit(s, m));
    FitIsLongest(s, least, Fit(Fit(s, m), n));
    FitIsLongest(s, m, Fit(s, least));
    FitIsLongest(Fit(s, m), n, Fit(s, least));
  }

  // ----- Searching -----

  function ExactFrom(entries: seq<HeaderField>, f: HeaderField, i: nat): (r: Option<nat>)
    ensures r.Some? ==> i <= r.value < |entries| && entries[r.value] == f
    decreases |entries| - i
  {
    if i >= |entries| then None
    else if entries[i] == f then Some(i)
    else ExactFrom(entries, f, i + 1)
  }

  function NameFrom(entries: seq<HeaderField>, name: seq<byte>, i: nat): (r: Option<nat>)
    ensures r.Some? ==> i <= r.value < |entries| && entries[r.value].name == name
    decreases |entries| - i
  {
    if i >= |entries| then None
    else if entries[i].name == name then Some(i)
    else NameFrom(entries, name, i + 1)
  }

  /** The first equal entry from `start` on, or else the first with that name; and whether it is equal. */
  function Search(entries: seq<HeaderField>, f: HeaderField, start: nat): (r: Option<(nat, bool)>)
    ensures r.Some? ==> start <= r.value.0 < |entries| && entries[r.value.0].name == f.name
    ensures r.Some? && r.value.1 ==> entries[r.value.0] == f
  {
    match ExactFrom(entries, f, start)
    case Some(i) => Some((i, true))
    case None =>
      match NameFrom(entries, f.name, start)
      case Some(i) => Some((i, false))
      case None => None
  }

  /** What a search result says about the entries that were passed over. */
  lemma {:induction false} SearchIsFirst(entries: seq<HeaderField>, f: HeaderField, start: nat)
    ensures match Search(entries, f, start)
            case None => forall k :: start <= k < |entries| ==> entries[k].name != f.name
            case Some((i, exact)) =>
              && (forall k :: start <= k < (if exact then i else |entries|) ==> entries[k] != f)
              && (!exact ==> forall k :: start <= k < i ==> entries[k].name != f.name)
    decreases |entries| - start
  {
    if start < |entries| {
      SearchIsFirst(entries, f, start + 1);
    }
  }

  /** The single pass of the code, remembering the first name match until an exact one turns up. */
  method FindEntry(entries: seq<HeaderField>, name: seq<byte>, value: seq<byte>, start: nat)
      returns (r: Option<(nat, bool)>)
    requires start <= |entries|
    ensures r == Search(entries, HeaderField(name, value), start)
  {
    ghost var f := HeaderField(name, value);
    var nameMatch: Option<nat> := None;
    for i := start to |entries|
      invariant ExactFrom(entries, f, start) == ExactFrom(entries, f, i)
      invariant NameFrom(entries, name, start) == if nameMatch.Some? then nameMatch else NameFrom(entries, name, i)
    {
      if entries[i].name == name {
        if entries[i].value == value {
          return Some((i, true));
        }
        if nameMatch.None? {
          nameMatch := Some(i);
        }
      }
    }
    match nameMatch
    case Some(i) => return Some((i, false));
    case None => return None;
  }

  // ----- The table -----

  /** The abstract state of a dynamic table. */
  datatype TableView = TableView(entries: seq<HeaderField>, max: nat) {
    ghost predicate Valid() {
      TotalSize(entries) <= max
    }

    function Inserted(f: HeaderField): (t: TableView)
      ensures t.Valid() && t.max == max
    {
      TableView(Fit([f] + entries, max), max)
    }

    function Resized(m: nat): (t: TableView)
      ensures t.Valid() && t.max == m
    {
      TableView(Fit(entries, m), m)
    }
  }

  class DynamicTable {
    var entries: seq<HeaderField>
    var size: nat
    var maxSize: nat

    ghost predicate Valid()
      reads this
    {
      size == TotalSize(entries) <= maxSize
    }

    ghost function View(): TableView
      reads this
    {
      TableView(entries, maxSize)
    }

    constructor (maxSize: nat)
      ensures Valid() && View() == TableView([], maxSize)
    {
      this.entries, this.size, this.maxSize := [], 0, maxSize;
    }

    method SetMaxSize(m: nat)
      requires Valid()
      modifies this
      ensures Valid() && View() == old(View()).Resized(m)
    {
      maxSize := m;
      Evict();
    }

    method PopBack()
      requires entries != [] && size == TotalSize(entries)
      modifies this`entries, this`size
      ensures entries == old(entries[..|entries| - 1]) && size == TotalSize(entries)
    {
      var n := |entries| - 1;
      TotalSizePush(entries[..n], entries[n]);
      assert entries == entries[..n] + [entries[n]];
      size := size - entries[n].Size();
      entries := entries[..n];
    }

    method Insert(f: HeaderField)
      requires Valid()
      modifies this
      ensures Valid() && View() == old(View()).Inserted(f)
    {
      var entrySize := f.Size();
      if entrySize > maxSize {
        entries, size := [], 0;
        return;
      }
      while size + entrySize > maxSize
        invariant size == TotalSize(entries) && maxSize == old(maxSize)
        invariant Fit([f] + entries, maxSize) == Fit([f] + old(entries), maxSize)
        decreases |entries|
      {
        TotalSizeFront(f, entries);
        if entries == [] {
          assert false; // an empty table has room: the search for an entry to evict never fails
        } else {
          FitDropLast([f] + entries, maxSize);
          assert ([f] + entries)[..|entries|] == [f] + entries[..|entries| - 1];
          PopBack();
        }
      }
      TotalSizeFront(f, entries);
      FitAll([f] + entries, maxSize);
      entries := [f] + entries;
      size := size + entrySize;
    }

    method Evict()
      requires size == TotalSize(entries)
      modifies this`entries, this`size
      ensures Valid() && entries == Fit(old(entries), maxSize)
    {
      while size > maxSize
        invariant size == TotalSize(entries)
        invariant Fit(entries, maxSize) == Fit(old(entries), maxSize)
        decreases |entries|
      {
        if entries == [] {
          assert false;
        } else {
          FitDropLast(entries, maxSize);
          PopBack();
        }
      }
      FitAll(entries, maxSize);
    }

    function Get(i: nat): Option<HeaderField>
      reads this
    {
      if i < |entries| then Some(entries[i]) else None
    }

    method Find(name: seq<byte>, value: seq<byte>) returns (r: Option<(nat, bool)>)
      ensures r == Search(entries, HeaderField(name, value), 0)
    {
      r := FindEntry(entries, name, value, 0);
    }
  }
}
