/** The bounded in-memory log and its cursor reads. */
module LogBuffer {

  datatype Entry = Entry(id: int, level: string, message: string)

  /** The log since the start, and how much of it is kept. */
  datatype State = State(maxSize: nat, all: seq<Entry>)

  predicate Numbered(all: seq<Entry>) {
    forall k :: 0 <= k < |all| ==> all[k].id == k + 1
  }

  predicate Sound(s: State) {
    s.maxSize > 0 && Numbered(s.all)
  }

  /** What a buffer of this size still holds: the last entries. */
  function Kept(s: State): (kept: seq<Entry>)
    ensures |kept| <= s.maxSize
  {
    if |s.all| <= s.maxSize then s.all else s.all[|s.all| - s.maxSize..]
  }

  function Limited(limit: int): nat {
    if limit <= 0 then 200 else limit
  }

  /** The entries after a cursor that are still held, oldest first, up to the limit. */
  function Page(s: State, afterId: int, limit: int): seq<Entry>
    requires Sound(s)
  {
    var first := |s.all| - |Kept(s)|;
    var start := if afterId > first then afterId else first;
    if start >= |s.all| then []
    else if start + Limited(limit) >= |s.all| then s.all[start..]
    else s.all[start..start + Limited(limit)]
  }

  function CursorAfter(page: seq<Entry>, afterId: int): int {
    if page == [] then afterId else page[|page| - 1].id
  }

  class Buffer {
    const maxSize: nat
    var entries: seq<Entry>
    var nextID: int
    ghost var all: seq<Entry>

    ghost predicate Valid()
      reads this
    {
      Sound(Now()) && entries == Kept(Now()) && nextID == |all| + 1
    }

    ghost function Now(): State
      reads this
    {
      State(maxSize, all)
    }

    constructor (maxSize: int)
      ensures Valid() && all == [] && this.maxSize == if maxSize <= 0 then 500 else maxSize
    {
      this.maxSize := if maxSize <= 0 then 500 else maxSize;
      entries, nextID, all := [], 1, [];
    }

    /** Level and message arrive normalised. */
    method Add(level: string, message: string) returns (entry: Entry)
      requires Valid()
      modifies this
      ensures Valid() && all == old(all) + [entry] && entry == Entry(|all|, level, message)
    {
      entry := Entry(nextID, level, message);
      nextID := nextID + 1;
      all := all + [entry];
      entries := entries + [entry];
      if |entries| > maxSize {
        var extra := |entries| - maxSize;
        entries := entries[extra..];
      }
    }

    method Since(afterID: int, limit: int) returns (out: seq<Entry>, cursor: int)
      requires Valid()
      ensures out == Page(Now(), afterID, limit) && cursor == CursorAfter(out, afterID)
    {
      var count := if limit <= 0 then 200 else limit;
      var start := FirstAfter(afterID);
      PageSlice(Now(), afterID, limit);
      if start >= |entries| {
        return [], afterID;
      }
      var end := if start + count > |entries| then |entries| else start + count;
      out := entries[start..end];
      cursor := out[|out| - 1].id;
    }

    /** Where in the buffer the entries after `afterID` start. */
    method FirstAfter(afterID: int) returns (start: nat)
      requires Valid()
      ensures start == Skipped(Now(), afterID)
    {
      start := 0;
      while start < |entries| && entries[start].id <= afterID
        invariant start <= |entries|
        invariant start > 0 ==> |all| - |entries| + start <= afterID
      {
        start := start + 1;
      }
    }
  }

  /** How many of the entries held are at or before a cursor. */
  function Skipped(s: State, afterId: int): nat {
    var first, held := |s.all| - |Kept(s)|, |Kept(s)|;
    if afterId <= first then 0 else if afterId - first <= held then afterId - first else held
  }

  lemma Slices<T>(all: seq<T>, first: nat, a: nat, b: nat)
    requires a <= b <= |all| - first
    ensures all[first..][a..b] == all[first + a..first + b] && all[first + a..] == all[first + a..|all|]
  {
  }

  lemma PageSlice(s: State, afterId: int, limit: int)
    requires Sound(s)
    ensures var start, held := Skipped(s, afterId), |Kept(s)|;
            var end := if start + Limited(limit) > held then held else start + Limited(limit);
            Page(s, afterId, limit) == Kept(s)[start..end]
  {
    var start, held := Skipped(s, afterId), |Kept(s)|;
    var first := |s.all| - held;
    assert Kept(s) == s.all[first..];
    if start < held {
      var end := if start + Limited(limit) > held then held else start + Limited(limit);
      assert first + start == if afterId > first then afterId else first;
      Slices(s.all, first, start, end);
    } else {
      assert Page(s, afterId, limit) == [];
    }
  }

  /** The buffer holds the last entries, as many as fit. */
  lemma KeepsLast(s: State)
    ensures var kept := Kept(s);
            && |kept| == (if |s.all| < s.maxSize then |s.all| else s.maxSize)
            && kept == s.all[|s.all| - |kept|..]
  {
  }

  /** How many entries wait behind a cursor that are still held. */
  function Waiting(s: State, afterId: int): nat {
    var first := if |s.all| < s.maxSize then 0 else |s.all| - s.maxSize;
    var start := if afterId > first then afterId else first;
    if start < |s.all| then |s.all| - start else 0
  }

  /** A page is full: it has all the entries that wait, or the first of them as far as the limit goes, and
      without a limit that is 200. */
  lemma PageIsFull(s: State, afterId: int, limit: int)
    requires Sound(s)
    ensures var waiting, most := Waiting(s, afterId), if limit <= 0 then 200 else limit;
            var from := |s.all| - waiting;
            Page(s, afterId, limit) == s.all[from..from + if waiting < most then waiting else most]
  {
    var from := |s.all| - Waiting(s, afterId);
    Slices(s.all, 0, from, from);
    assert |Kept(s)| == if |s.all| < s.maxSize then |s.all| else s.maxSize;
  }

  // ---- a reader that follows its cursor while others write ----

  /** Between two reads others add entries. */
  datatype Read = Read(added: seq<Entry>, limit: int)

  /** What the reader has received, its cursor, and the ids that were gone before it came to them. */
  datatype Reader = Reader(state: State, received: seq<Entry>, cursor: int, evicted: set<int>)

  function First(s: State): nat {
    |s.all| - |Kept(s)|
  }

  predicate Between(lo: int, id: int, hi: int) {
    lo < id <= hi
  }

  function Gap(lo: int, hi: int): set<int> {
    set id | lo < id <= hi && Between(lo, id, hi)
  }

  function ReadOnce(r: Reader, read: Read): Reader
    requires Sound(r.state.(all := r.state.all + read.added))
  {
    var s := r.state.(all := r.state.all + read.added);
    var page := Page(s, r.cursor, read.limit);
    Reader(s, r.received + page, CursorAfter(page, r.cursor), r.evicted + Gap(r.cursor, First(s)))
  }

  ghost predicate Follows(maxSize: nat, readers: seq<Reader>, visits: seq<Read>) {
    && maxSize > 0 && |readers| == |visits| + 1
    && readers[0] == Reader(State(maxSize, []), [], 0, {})
    && forall k :: 0 <= k < |visits| ==>
         && Sound(readers[k].state.(all := readers[k].state.all + visits[k].added))
         && readers[k + 1] == ReadOnce(readers[k], visits[k])
  }

  predicate Increasing(entries: seq<Entry>) {
    forall i, j :: 0 <= i < j < |entries| ==> entries[i].id < entries[j].id
  }

  predicate Received(entries: seq<Entry>, id: int) {
    exists k :: 0 <= k < |entries| && entries[k].id == id
  }

  predicate Genuine(all: seq<Entry>, cursor: int, evicted: set<int>, e: Entry) {
    1 <= e.id <= cursor && e.id <= |all| && all[e.id - 1] == e && e.id !in evicted
  }

  /** The reader has each entry up to its cursor unless it was evicted before it could be read:
      nothing twice, nothing altered, in order. */
  ghost predicate Faithful(r: Reader) {
    && Sound(r.state)
    && 0 <= r.cursor <= |r.state.all|
    && Increasing(r.received)
    && (forall e :: e in r.received ==> Genuine(r.state.all, r.cursor, r.evicted, e))
    && (forall id :: 1 <= id <= r.cursor ==> Received(r.received, id) || id in r.evicted)
    && (forall id :: id in r.evicted ==> 1 <= id <= First(r.state))
  }

  /** A page is a run of consecutive ids, from the cursor or the oldest entry held. */
  lemma PageIds(s: State, cursor: int, limit: int)
    requires Sound(s) && 0 <= cursor <= |s.all|
    ensures var page, start := Page(s, cursor, limit), if cursor > First(s) then cursor else First(s);
            && start + |page| <= |s.all|
            && page == s.all[start..start + |page|]
            && (page == [] ==> start == |s.all|)
            && (forall k :: 0 <= k < |page| ==> page[k].id == start + k + 1)
            && CursorAfter(page, cursor) == if page == [] then cursor else start + |page|
  {
  }

  lemma ReceivedMore(received: seq<Entry>, page: seq<Entry>, id: int)
    requires Received(received, id) || Received(page, id)
    ensures Received(received + page, id)
  {
    if Received(received, id) {
      var k :| 0 <= k < |received| && received[k].id == id;
      assert (received + page)[k].id == id;
    } else {
      var k :| 0 <= k < |page| && page[k].id == id;
      assert (received + page)[|received| + k].id == id;
    }
  }

  lemma ReadKeepsOld(r: Reader, read: Read, e: Entry)
    requires Faithful(r) && Sound(r.state.(all := r.state.all + read.added)) && e in r.received
    ensures var r' := ReadOnce(r, read); Genuine(r'.state.all, r'.cursor, r'.evicted, e)
  {
    var r' := ReadOnce(r, read);
    PageIds(r'.state, r.cursor, read.limit);
    assert r'.state.all[e.id - 1] == r.state.all[e.id - 1];
  }

  lemma PageMember(s: State, cursor: int, limit: int, k: nat)
    requires Sound(s) && 0 <= cursor <= |s.all| && k < |Page(s, cursor, limit)|
    ensures var e := Page(s, cursor, limit)[k];
            && 1 <= e.id <= |s.all| && s.all[e.id - 1] == e
            && e.id > cursor && e.id > First(s) && e.id <= CursorAfter(Page(s, cursor, limit), cursor)
  {
    PageIds(s, cursor, limit);
  }

  lemma EvictedIsGone(r: Reader, read: Read, id: int)
    requires Faithful(r) && Sound(r.state.(all := r.state.all + read.added))
    requires id in ReadOnce(r, read).evicted
    ensures 1 <= id <= First(ReadOnce(r, read).state)
  {
    assert First(r.state) <= First(ReadOnce(r, read).state);
  }

  lemma ReadAddsNew(r: Reader, read: Read, k: nat)
    requires Faithful(r) && Sound(r.state.(all := r.state.all + read.added))
    requires k < |Page(ReadOnce(r, read).state, r.cursor, read.limit)|
    ensures var r' := ReadOnce(r, read);
            var e := Page(r'.state, r.cursor, read.limit)[k];
            Genuine(r'.state.all, r'.cursor, r'.evicted, e) && e.id > r.cursor
  {
    var r' := ReadOnce(r, read);
    var page := Page(r'.state, r.cursor, read.limit);
    PageMember(r'.state, r.cursor, read.limit, k);
    assert r'.cursor == CursorAfter(page, r.cursor);
    NotEvicted(r, read, page[k].id);
  }

  lemma NotEvicted(r: Reader, read: Read, id: int)
    requires Faithful(r) && Sound(r.state.(all := r.state.all + read.added))
    requires id > First(ReadOnce(r, read).state)
    ensures id !in ReadOnce(r, read).evicted
  {
    if id in ReadOnce(r, read).evicted {
      EvictedIsGone(r, read, id);
    }
  }

  lemma ReadCovers(r: Reader, read: Read, id: int)
    requires Faithful(r) && Sound(r.state.(all := r.state.all + read.added))
    requires 1 <= id <= ReadOnce(r, read).cursor
    ensures var r' := ReadOnce(r, read); Received(r'.received, id) || id in r'.evicted
  {
    var r' := ReadOnce(r, read);
    var page, first := Page(r'.state, r.cursor, read.limit), First(r'.state);
    var start := if r.cursor > first then r.cursor else first;
    PageIds(r'.state, r.cursor, read.limit);
    if id <= r.cursor {
      assert Received(r.received, id) || id in r.evicted;
      if Received(r.received, id) {
        ReceivedMore(r.received, page, id);
      }
    } else if id > start {
      assert page[id - start - 1].id == id;
      ReceivedMore(r.received, page, id);
    } else {
      assert Between(r.cursor, id, first);
    }
  }

  lemma ReadFaithful(r: Reader, read: Read)
    requires Faithful(r) && Sound(r.state.(all := r.state.all + read.added))
    ensures Faithful(ReadOnce(r, read))
  {
    var r' := ReadOnce(r, read);
    var page := Page(r'.state, r.cursor, read.limit);
    forall k | 0 <= k < |page|
      ensures Genuine(r'.state.all, r'.cursor, r'.evicted, page[k]) && page[k].id > r.cursor
    {
      ReadAddsNew(r, read, k);
    }
    forall e | e in r'.received
      ensures Genuine(r'.state.all, r'.cursor, r'.evicted, e)
    {
      if e in r.received {
        ReadKeepsOld(r, read, e);
      } else {
        assert e in page;
      }
    }
    forall id | 1 <= id <= r'.cursor
      ensures Received(r'.received, id) || id in r'.evicted
    {
      ReadCovers(r, read, id);
    }
    NewIncreases(r, read);
  }

  lemma NewIncreases(r: Reader, read: Read)
    requires Faithful(r) && Sound(r.state.(all := r.state.all + read.added))
    ensures var r' := ReadOnce(r, read);
            0 <= r'.cursor <= |r'.state.all| && Increasing(r'.received)
  {
    var state := ReadOnce(r, read).state;
    var page := Page(state, r.cursor, read.limit);
    PageIds(state, r.cursor, read.limit);
    IncreasingMore(r, page);
  }

  lemma IncreasingMore(r: Reader, page: seq<Entry>)
    requires Increasing(r.received) && Increasing(page)
    requires forall e :: e in r.received ==> e.id <= r.cursor
    requires forall e :: e in page ==> e.id > r.cursor
    ensures Increasing(r.received + page)
  {
    var all := r.received + page;
    forall i, j | 0 <= i < j < |all|
      ensures all[i].id < all[j].id
    {
      if i < |r.received| <= j {
        assert r.received[i] in r.received && page[j - |r.received|] in page;
      }
    }
  }

  /** However reads and writes interleave, following the cursor yields strictly increasing ids and
      misses exactly the entries evicted before they were reached. */
  lemma {:induction false} CursorReadsAreFaithful(maxSize: nat, readers: seq<Reader>, visits: seq<Read>, k: nat)
    requires Follows(maxSize, readers, visits) && k <= |visits|
    ensures Faithful(readers[k])
  {
    if k > 0 {
      CursorReadsAreFaithful(maxSize, readers, visits, k - 1);
      ReadFaithful(readers[k - 1], visits[k - 1]);
    }
  }
}
