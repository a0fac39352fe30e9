/** The two message queues of a controller: the received queue, read through a
    cursor, and the outgoing queue, in which a keyed message replaces the pending
    one with the same key. */
module Queues {
  import opened Basics
  import opened Wire
  import opened Codec

  // ----- Received messages -----

  /** What appending a batch to queued messages gives: the longer queue, or the
      limit that stops it. */
  function Appended(queue: Batch, source: Batch): (r: Result<Batch, Error>)
  {
    if Total(source) > MAX_BYTES then Err(QueueBytes)
    else if |source| > MAX_MESSAGES then Err(QueueCount)
    else if |queue| + |source| > MAX_MESSAGES || Total(source) > MAX_BYTES - Total(queue) then Err(QueueLimit)
    else Ok(queue + source)
  }

  /** The checks of `append` accept a batch exactly when the joined queue is within the limits. */
  lemma AppendedIff(queue: Batch, source: Batch)
    ensures Appended(queue, source).Ok? <==> Within(queue + source)
    ensures Appended(queue, source).Ok? ==> Appended(queue, source).value == queue + source
  {
    TotalConcat(queue, source);
  }

  class ReceivedQueue {
    var messages: seq<Message>
    var next: nat
    var bytes: nat
    /** The descriptors the vector has room for: growing past it reallocates. */
    var capacity: nat

    ghost predicate Valid()
      reads this
    {
      && next <= |messages| <= capacity
      && bytes == Total(messages[next..])
      && Within(messages[next..])
    }

    ghost function Contents(): (q: Batch)
      requires Valid()
      reads this
    {
      messages[next..]
    }

    constructor ()
      ensures Valid() && Contents() == []
    {
      messages, next, bytes, capacity := [], 0, 0, 0;
    }

    /** One `push_back` that must not reallocate. */
    method Push(m: Message)
      requires |messages| < capacity
      modifies this`messages
      ensures messages == old(messages) + [m]
    {
      messages := messages + [m];
    }

    /** `append`. `memory` says whether a reservation succeeds; `left` is what
        remains of the caller's batch. */
    method Append(source: Batch, memory: bool) returns (r: Result<(), Error>, left: Batch)
      requires Valid()
      modifies this
      ensures Valid()
      ensures r.Ok? ==> Contents() == old(Contents()) + source && left == []
      ensures r.Err? ==> unchanged(this) && left == source
      ensures r.Ok? ==> Within(old(Contents()) + source)
      ensures Appended(old(Contents()), source).Err? ==> r == Err(Appended(old(Contents()), source).error)
      ensures Appended(old(Contents()), source).Ok? ==> r.Ok? || (!memory && r == Err(OutOfMemory))
    {
      AppendedIff(Contents(), source);
      TotalConcat(Contents(), source);
      var count := |messages| - next;
      var added := PayloadBytes(source);
      if added.Err? {
        return Err(added.error), source;
      }
      var budget: nat := MAX_BYTES - bytes;
      if count + |source| > MAX_MESSAGES || added.value > budget {
        return Err(QueueLimit), source;
      }
      if source == [] {
        assert Contents() + source == Contents();
        return Ok(()), source;
      }
      var needed := count + |source|;
      if needed > capacity {
        if !memory {
          return Err(OutOfMemory), source;
        }
        capacity := Max(needed, Min(MAX_MESSAGES, Max(16, capacity * 2)));
      }
      ghost var queue := Contents();
      if next > 0 {
        messages, next := messages[next..], 0;
      }
      assert messages == queue;
      for i := 0 to |source|
        invariant next == 0 && messages == queue + source[..i]
        invariant capacity >= |queue| + |source| && bytes == old(bytes)
      {
        Push(source[i]);
        assert source[..i + 1] == source[..i] + [source[i]];
      }
      assert source[..|source|] == source;
      assert messages[next..] == messages;
      bytes := bytes + added.value;
      return Ok(()), [];
    }

    /** `take`: the oldest message. The slot it leaves is moved from. */
    method Take() returns (r: Option<Message>)
      requires Valid()
      modifies this
      ensures Valid()
      ensures old(Contents()) == [] ==> r == None && Contents() == []
      ensures old(Contents()) != [] ==> r == Some(old(Contents())[0]) && Contents() == old(Contents())[1..]
    {
      if next == |messages| {
        return None;
      }
      bytes := bytes - |messages[next]|;
      r := Some(messages[next]);
      assert messages[next..][1..] == messages[next + 1..];
      messages, next := messages[next := []], next + 1;
      assert messages[next..] == old(messages)[next..];
      if next == |messages| {
        messages, next := [], 0;
      }
    }

    /** `drain`: everything not yet taken. */
    method Drain() returns (r: Batch)
      requires Valid()
      modifies this
      ensures Valid() && Contents() == []
      ensures r == old(Contents()) && Within(r)
    {
      messages := messages[next..];
      next, bytes := 0, 0;
      r := messages;
      messages, capacity := [], 0;
    }
  }

  // ----- Outgoing messages -----

  datatype Entry = Entry(data: Message, key: string)

  function Data(entries: seq<Entry>): (b: Batch)
    ensures |b| == |entries|
    ensures forall i :: 0 <= i < |b| ==> b[i] == entries[i].data
  {
    seq(|entries|, i requires 0 <= i < |entries| => entries[i].data)
  }

  function Bytes(entries: seq<Entry>): (n: nat)
  {
    if entries == [] then 0 else Bytes(entries[..|entries| - 1]) + |entries[|entries| - 1].data|
  }

  lemma {:induction false} BytesOfData(entries: seq<Entry>)
    ensures Bytes(entries) == Total(Data(entries))
  {
    if entries == [] {
    } else {
      var front, last := entries[..|entries| - 1], entries[|entries| - 1];
      BytesOfData(front);
      TotalSnoc(Data(front), last.data);
      assert Data(entries) == Data(front) + [last.data];
    }
  }

  lemma BytesSnoc(front: seq<Entry>, e: Entry)
    ensures Bytes(front + [e]) == Bytes(front) + |e.data|
  {
    assert (front + [e])[..|front|] == front;
  }

  /** Some entry carries this key. */
  predicate HasKey(entries: seq<Entry>, key: string)
  {
    exists i :: 0 <= i < |entries| && entries[i].key == key
  }

  /** The specification of coalescing, on the history of accepted submissions:
      those with an empty key, and the last one of each other key, in order. */
  function Coalesced(history: seq<Entry>): (r: seq<Entry>)
  {
    if history == [] then []
    else if history[0].key != "" && HasKey(history[1..], history[0].key) then Coalesced(history[1..])
    else [history[0]] + Coalesced(history[1..])
  }

  /** The entries that `erase_if` leaves. */
  function Without(entries: seq<Entry>, key: string): (r: seq<Entry>)
    ensures |r| <= |entries|
  {
    if entries == [] then []
    else
      var front := Without(entries[..|entries| - 1], key);
      if entries[|entries| - 1].key == key then front else front + [entries[|entries| - 1]]
  }

  function Kept(entries: seq<Entry>, key: string): (r: seq<Entry>)
  {
    if key == "" then entries else Without(entries, key)
  }

  /** What submitting to pending entries gives. */
  function Submitted(entries: seq<Entry>, e: Entry): (r: Result<seq<Entry>, Error>)
  {
    var kept := Kept(entries, e.key);
    if |kept| >= MAX_MESSAGES || |e.data| > MAX_BYTES - Bytes(kept) then Err(QueueLimit)
    else Ok(kept + [e])
  }

  lemma WithoutLast(front: seq<Entry>, e: Entry, key: string)
    ensures Without(front + [e], key) == Without(front, key) + (if e.key == key then [] else [e])
  {
    assert (front + [e])[..|front|] == front;
  }

  lemma {:induction false} WithoutConcat(a: seq<Entry>, b: seq<Entry>, key: string)
    ensures Without(a + b, key) == Without(a, key) + Without(b, key)
  {
    if b == [] {
      assert a + b == a;
    } else {
      var front, last := b[..|b| - 1], b[|b| - 1];
      WithoutConcat(a, front, key);
      assert a + b == (a + front) + [last] && b == front + [last];
      WithoutLast(a + front, last, key);
      WithoutLast(front, last, key);
    }
  }

  lemma HasKeyConcat(a: seq<Entry>, b: seq<Entry>, key: string)
    ensures HasKey(a + b, key) <==> HasKey(a, key) || HasKey(b, key)
  {
    if HasKey(a, key) {
      var i :| 0 <= i < |a| && a[i].key == key;
      assert (a + b)[i].key == key;
    }
    if HasKey(b, key) {
      var i :| 0 <= i < |b| && b[i].key == key;
      assert (a + b)[|a| + i].key == key;
    }
  }

  lemma KeptCons(x: Entry, tail: seq<Entry>, key: string)
    ensures Kept([x] + tail, key) == (if key != "" && x.key == key then [] else [x]) + Kept(tail, key)
  {
    WithoutConcat([x], tail, key);
    WithoutLast([], x, key);
    assert [] + [x] == [x];
  }

  /** Submitting, seen on histories: the older entries of the key go, the new
      entry comes last. This is what makes the queue a filter of its history. */
  lemma {:induction false} CoalescedSnoc(h: seq<Entry>, e: Entry)
    ensures Coalesced(h + [e]) == Kept(Coalesced(h), e.key) + [e]
  {
    if h == [] {
      assert [e][1..] == [] && h + [e] == [e];
      assert Coalesced([e]) == [e] + Coalesced([]);
    } else {
      var x, tail := h[0], h[1..];
      assert (h + [e])[0] == x && (h + [e])[1..] == tail + [e];
      CoalescedSnoc(tail, e);
      HasKeyConcat(tail, [e], x.key);
      assert HasKey([e], x.key) <==> [e][0].key == x.key;
      KeptCons(x, Coalesced(tail), e.key);
    }
  }

  predicate KeysUnique(entries: seq<Entry>)
  {
    forall i, j :: 0 <= i < j < |entries| && entries[i].key != "" ==> entries[i].key != entries[j].key
  }

  lemma {:induction false} CoalescedKeys(h: seq<Entry>, key: string)
    ensures HasKey(Coalesced(h), key) <==> HasKey(h, key)
  {
    if h == [] {
    } else {
      CoalescedKeys(h[1..], key);
      assert h == [h[0]] + h[1..];
      HasKeyConcat([h[0]], h[1..], key);
      HasKeyConcat([h[0]], Coalesced(h[1..]), key);
      assert HasKey([h[0]], key) <==> [h[0]][0].key == key;
    }
  }

  /** At most one pending entry carries a given nonempty key. */
  lemma {:induction false} CoalescedUnique(h: seq<Entry>)
    ensures KeysUnique(Coalesced(h))
  {
    if h == [] {
    } else {
      CoalescedUnique(h[1..]);
      CoalescedKeys(h[1..], h[0].key);
      var tail := Coalesced(h[1..]);
      if h[0].key == "" || !HasKey(h[1..], h[0].key) {
        assert forall j :: 0 <= j < |tail| ==> h[0].key == "" || tail[j].key != h[0].key;
      }
    }
  }

  /** Coalescing keeps the newest value: the last entry of a history survives,
      and it survives as the last entry of the queue. */
  lemma CoalescedLast(h: seq<Entry>)
    requires h != []
    ensures Coalesced(h) != [] && Coalesced(h)[|Coalesced(h)| - 1] == h[|h| - 1]
  {
    assert h == h[..|h| - 1] + [h[|h| - 1]];
    CoalescedSnoc(h[..|h| - 1], h[|h| - 1]);
  }

  /** Submissions without a key are never dropped or reordered. */
  lemma {:induction false} UnkeyedIsFifo(h: seq<Entry>)
    requires forall i :: 0 <= i < |h| ==> h[i].key == ""
    ensures Coalesced(h) == h
  {
    if h == [] {
    } else {
      UnkeyedIsFifo(h[1..]);
      assert h == [h[0]] + h[1..];
    }
  }

  /** A prefix and what it keeps, one entry further. */
  lemma RemainingStep(entries: seq<Entry>, i: nat, key: string)
    requires i < |entries|
    ensures var now, later := Without(entries[..i], key), Without(entries[..i + 1], key);
      && Bytes(entries[..i + 1]) == Bytes(entries[..i]) + |entries[i].data|
      && if entries[i].key == key then later == now
         else |later| == |now| + 1 && Bytes(later) == Bytes(now) + |entries[i].data|
  {
    assert entries[..i + 1] == entries[..i] + [entries[i]];
    WithoutLast(entries[..i], entries[i], key);
    BytesSnoc(entries[..i], entries[i]);
    BytesSnoc(Without(entries[..i], key), entries[i]);
  }

  lemma {:induction false} PrefixBytes(entries: seq<Entry>, i: nat)
    requires i <= |entries|
    ensures Bytes(entries[..i]) <= Bytes(entries)
  {
    if i < |entries| {
      var front := entries[..|entries| - 1];
      PrefixBytes(front, i);
      assert front[..i] == entries[..i];
    } else {
      assert entries[..i] == entries;
    }
  }

  /** The accounting loop of `submit`: the size and the number of the entries
      that stay once those of the key go. No subtraction goes below zero. */
  method Remaining(entries: seq<Entry>, bytes: nat, key: string) returns (count: nat, size: nat)
    requires bytes == Bytes(entries)
    ensures size == |Kept(entries, key)| && count == Bytes(Kept(entries, key)) <= bytes
  {
    count, size := bytes, |entries|;
    if key != "" {
      for i := 0 to |entries|
        invariant size == |entries| - i + |Without(entries[..i], key)|
        invariant count == bytes - Bytes(entries[..i]) + Bytes(Without(entries[..i], key)) <= bytes
      {
        RemainingStep(entries, i, key);
        PrefixBytes(entries, i + 1);
        if entries[i].key == key {
          count := count - |entries[i].data|;
          size := size - 1;
        }
      }
      assert entries[..|entries|] == entries;
    }
  }

  /** A queue within the limits stays within them. */
  lemma SubmittedWithin(entries: seq<Entry>, e: Entry)
    ensures var r := Submitted(entries, e);
      r.Ok? ==> Within(Data(r.value)) && Bytes(r.value) == Bytes(Kept(entries, e.key)) + |e.data|
  {
    var kept := Kept(entries, e.key);
    BytesSnoc(kept, e);
    BytesOfData(kept + [e]);
  }

  /** Submitting keeps the queue the coalesced form of its history, within the limits. */
  lemma SubmitKeeps(history: seq<Entry>, e: Entry)
    ensures var queue := Coalesced(history);
      var r := Submitted(queue, e);
      r.Ok? ==>
        && r.value == Kept(queue, e.key) + [e] == Coalesced(history + [e])
        && Within(Data(r.value)) && Bytes(r.value) == Bytes(Kept(queue, e.key)) + |e.data|
  {
    SubmittedWithin(Coalesced(history), e);
    CoalescedSnoc(history, e);
  }

  class OutgoingQueue {
    var entries: seq<Entry>
    var bytes: nat
    var capacity: nat
    /** The accepted submissions since the last drain. */
    ghost var history: seq<Entry>

    ghost predicate Valid()
      reads this
    {
      && |entries| <= capacity
      && entries == Coalesced(history)
      && bytes == Bytes(entries)
      && Within(Data(entries))
    }

    constructor ()
      ensures Valid() && history == [] && entries == []
    {
      entries, bytes, capacity, history := [], 0, 0, [];
    }

    /** The changes of `submit`, none of which can fail. */
    method Replace(e: Entry, count: nat)
      requires Valid() && Submitted(entries, e).Ok?
      requires count == Bytes(Kept(entries, e.key)) && |Kept(entries, e.key)| < capacity
      modifies this`entries, this`bytes, this`history
      ensures Valid() && history == old(history) + [e]
      ensures Submitted(old(entries), e) == Ok(entries)
    {
      SubmitKeeps(history, e);
      if e.key != "" {
        entries := Without(entries, e.key);
      }
      bytes := count + |e.data|;
      Push(e);
      history := history + [e];
    }

    /** The one allocation of `submit`, made before anything changes. */
    method Reserve(size: nat, memory: bool) returns (ok: bool)
      requires size <= |entries| <= capacity && size < MAX_MESSAGES
      modifies this`capacity
      ensures old(capacity) <= capacity
      ensures ok ==> size < capacity
      ensures !ok ==> !memory && capacity == old(capacity)
    {
      if size + 1 > capacity {
        if !memory {
          return false;
        }
        capacity := Min(MAX_MESSAGES, Max(16, capacity * 2));
      }
      return true;
    }

    /** `submit`. A refusal, for a limit or for memory, changes nothing. */
    method Submit(data: Message, key: string, memory: bool) returns (r: Result<(), Error>)
      requires Valid()
      modifies this
      ensures Valid()
      ensures r.Ok? ==> history == old(history) + [Entry(data, key)]
      ensures r.Err? ==> unchanged(this)
      ensures r.Ok? ==> Submitted(old(entries), Entry(data, key)) == Ok(entries)
      ensures Submitted(old(entries), Entry(data, key)).Err? ==> r == Err(QueueLimit)
      ensures Submitted(old(entries), Entry(data, key)).Ok? ==> r.Ok? || (!memory && r == Err(OutOfMemory))
    {
      var count, size := Remaining(entries, bytes, key);
      assert bytes <= MAX_BYTES by { BytesOfData(entries); }
      var budget: nat := MAX_BYTES - count;
      if size >= MAX_MESSAGES || |data| > budget {
        return Err(QueueLimit);
      }
      var reserved := Reserve(size, memory);
      if !reserved {
        return Err(OutOfMemory);
      }
      Replace(Entry(data, key), count);
      return Ok(());
    }

    /** One `push_back` that must not reallocate. */
    method Push(e: Entry)
      requires |entries| < capacity
      modifies this`entries
      ensures entries == old(entries) + [e]
    {
      entries := entries + [e];
    }

    /** `drain`: the coalesced history, as a batch that fits one packet. Its one
        allocation comes first, so that failing leaves everything queued. */
    method Drain(memory: bool) returns (r: Result<Batch, Error>)
      requires Valid()
      modifies this
      ensures Valid()
      ensures r.Ok? <==> memory
      ensures r.Ok? ==> entries == [] && history == []
      ensures r.Ok? ==> r.value == Data(Coalesced(old(history))) && Within(r.value)
      ensures r.Err? ==> r.error == OutOfMemory && unchanged(this)
    {
      if !memory {
        return Err(OutOfMemory);
      }
      var batch := [];
      for i := 0 to |entries|
        invariant batch == Data(entries[..i])
      {
        batch := batch + [entries[i].data];
      }
      assert entries[..|entries|] == entries;
      entries, bytes, history := [], 0, [];
      return Ok(batch);
    }
  }
}
