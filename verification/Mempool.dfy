/** src/blockchain/mempool.rs: the LRU + TTL deduplication cache and the filtering pipeline. */
module Mempool {
  import opened Units
  import opened Transactions

  /** Transaction hashes as announced by the subscription. */
  type Hash = nat

  const CACHE_ENTRY_TTL: nat := 300 * SECOND

  datatype Entry = Entry(hash: Hash, seenAt: nat)

  datatype Query = Query(hash: Hash, at: nat, duplicate: bool)

  // The specification over the whole call history

  function Without(hashes: seq<Hash>, h: Hash): seq<Hash> {
    if hashes == [] then []
    else if hashes[0] == h then Without(hashes[1..], h)
    else [hashes[0]] + Without(hashes[1..], h)
  }

  /** The distinct hashes queried so far, the most recent first. */
  function Recent(history: seq<Query>): seq<Hash> {
    if history == [] then []
    else
      var h := history[|history| - 1].hash;
      [h] + Without(Recent(history[..|history| - 1]), h)
  }

  /** When `h` was last let through, if ever. */
  function LastPassed(history: seq<Query>, h: Hash): Option<nat> {
    if history == [] then None
    else
      var q := history[|history| - 1];
      if q.hash == h && !q.duplicate then Some(q.at) else LastPassed(history[..|history| - 1], h)
  }

  function Prefix(hashes: seq<Hash>, n: nat): seq<Hash> {
    hashes[..Min(n, |hashes|)]
  }

  /** The answer the history determines: duplicate if the hash is among the C most recently queried ones and was let
      through less than the TTL ago. */
  function ExpectedAnswer(history: seq<Query>, capacity: nat, h: Hash, now: nat): bool {
    && h in Prefix(Recent(history), capacity)
    && LastPassed(history, h).Some?
    && now < LastPassed(history, h).value + CACHE_ENTRY_TTL
  }

  function Keys(entries: seq<Entry>): (keys: seq<Hash>)
    ensures |keys| == |entries|
  {
    seq(|entries|, i requires 0 <= i < |entries| => entries[i].hash)
  }

  /** The cache refines the history: its keys in recency order are the C most recent distinct hashes, and each stored
      time is that of the latest query of its hash that was let through. */
  ghost predicate Refines(entries: seq<Entry>, history: seq<Query>, capacity: nat) {
    && Keys(entries) == Prefix(Recent(history), capacity)
    && forall e <- entries :: LastPassed(history, e.hash) == Some(e.seenAt)
  }

  lemma {:induction false} WithoutSplit(a: seq<Hash>, b: seq<Hash>, h: Hash)
    ensures Without(a + b, h) == Without(a, h) + Without(b, h)
  {
    if a == [] {
      assert a + b == b;
    } else {
      assert (a + b)[1..] == a[1..] + b;
      WithoutSplit(a[1..], b, h);
    }
  }

  lemma {:induction false} WithoutAbsent(hashes: seq<Hash>, h: Hash)
    requires h !in hashes
    ensures Without(hashes, h) == hashes
  {
    if hashes != [] {
      WithoutAbsent(hashes[1..], h);
    }
  }

  lemma {:induction false} WithoutMembers(hashes: seq<Hash>, h: Hash)
    ensures h !in Without(hashes, h)
    ensures forall x :: x in Without(hashes, h) <==> x in hashes && x != h
  {
    if hashes != [] {
      WithoutMembers(hashes[1..], h);
      assert hashes == [hashes[0]] + hashes[1..];
    }
  }

  predicate Distinct(hashes: seq<Hash>) {
    forall i, j :: 0 <= i < j < |hashes| ==> hashes[i] != hashes[j]
  }

  lemma PrependDistinct(h: Hash, hashes: seq<Hash>)
    requires Distinct(hashes) && h !in hashes
    ensures Distinct([h] + hashes)
  {
  }

  lemma {:induction false} WithoutDistinct(hashes: seq<Hash>, h: Hash)
    requires Distinct(hashes)
    ensures Distinct(Without(hashes, h))
    ensures |Without(hashes, h)| == |hashes| - if h in hashes then 1 else 0
  {
    if hashes != [] {
      assert hashes[0] !in hashes[1..];
      WithoutDistinct(hashes[1..], h);
      WithoutMembers(hashes[1..], h);
      if hashes[0] != h {
        PrependDistinct(hashes[0], Without(hashes[1..], h));
      }
    }
  }

  lemma {:induction false} RecentDistinct(history: seq<Query>)
    ensures Distinct(Recent(history))
  {
    if history != [] {
      var front, h := history[..|history| - 1], history[|history| - 1].hash;
      RecentDistinct(front);
      WithoutDistinct(Recent(front), h);
      WithoutMembers(Recent(front), h);
      PrependDistinct(h, Without(Recent(front), h));
    }
  }

  lemma {:induction false} RecentMembers(history: seq<Query>, h: Hash)
    ensures h in Recent(history) <==> exists i :: 0 <= i < |history| && history[i].hash == h
  {
    if history != [] {
      var front, last := history[..|history| - 1], history[|history| - 1];
      RecentMembers(front, h);
      WithoutMembers(Recent(front), last.hash);
      assert forall i :: 0 <= i < |front| ==> front[i] == history[i];
    }
  }

  lemma {:induction false} WithoutAt(hashes: seq<Hash>, k: nat)
    requires Distinct(hashes) && k < |hashes|
    ensures Without(hashes, hashes[k]) == hashes[..k] + hashes[k + 1..]
  {
    if k == 0 {
      WithoutAbsent(hashes[1..], hashes[0]);
    } else {
      WithoutAt(hashes[1..], k - 1);
      assert [hashes[0]] + hashes[1..][..k - 1] == hashes[..k];
    }
  }

  lemma FrontSlices(hashes: seq<Hash>, n: nat, k: nat)
    requires k < n <= |hashes|
    ensures [hashes[k]] + hashes[..n][..k] + hashes[..n][k + 1..] == ([hashes[k]] + (hashes[..k] + hashes[k + 1..]))[..n]
  {
  }

  /** A hit at position k: moving it to the front of the cache is moving it to the front of the history. */
  lemma HitOrder(recent: seq<Hash>, capacity: nat, k: nat)
    requires Distinct(recent) && k < |Prefix(recent, capacity)|
    ensures var keys, h := Prefix(recent, capacity), recent[k];
            [h] + keys[..k] + keys[k + 1..] == Prefix([h] + Without(recent, h), capacity)
  {
    WithoutAt(recent, k);
    FrontSlices(recent, |Prefix(recent, capacity)|, k);
  }

  lemma WithoutBeyond(hashes: seq<Hash>, n: nat, h: Hash)
    requires n <= |hashes| && h !in hashes[..n]
    ensures n <= |Without(hashes, h)| && Without(hashes, h)[..n] == hashes[..n]
  {
    assert hashes == hashes[..n] + hashes[n..];
    WithoutSplit(hashes[..n], hashes[n..], h);
    WithoutAbsent(hashes[..n], h);
  }

  /** A miss: the new hash goes to the front and the oldest key is evicted when the cache is full. */
  lemma MissOrder(recent: seq<Hash>, capacity: nat, h: Hash)
    requires capacity > 0 && h !in Prefix(recent, capacity)
    ensures var keys := Prefix(recent, capacity);
            [h] + (if |keys| < capacity then keys else keys[..capacity - 1]) == Prefix([h] + Without(recent, h), capacity)
  {
    var keys := Prefix(recent, capacity);
    WithoutBeyond(recent, |keys|, h);
    if |keys| < capacity {
      WithoutAbsent(recent, h);
    }
  }

  // The guarantee

  /** Every recorded answer is the one the history determines. */
  predicate Faithful(history: seq<Query>, capacity: nat) {
    forall j :: 0 <= j < |history| ==>
      history[j].duplicate == ExpectedAnswer(history[..j], capacity, history[j].hash, history[j].at)
  }

  /** The hashes queried since the last query of `h`. */
  function SinceLast(history: seq<Query>, h: Hash): set<Hash> {
    if history == [] then {}
    else
      var last := history[|history| - 1].hash;
      if last == h then {} else SinceLast(history[..|history| - 1], h) + {last}
  }

  function Elements(hashes: seq<Hash>): set<Hash> {
    if hashes == [] then {} else {hashes[0]} + Elements(hashes[1..])
  }

  lemma {:induction false} ElementsMember(hashes: seq<Hash>, h: Hash)
    ensures h in Elements(hashes) <==> h in hashes
  {
    if hashes != [] {
      ElementsMember(hashes[1..], h);
    }
  }

  lemma {:induction false} ElementsWithout(hashes: seq<Hash>, h: Hash)
    ensures Elements(Without(hashes, h)) == Elements(hashes) - {h}
  {
    if hashes != [] {
      ElementsWithout(hashes[1..], h);
    }
  }

  /** In recency order, exactly the hashes queried since the last query of `h` come before it. */
  lemma {:induction false} RecentSplit(history: seq<Query>, h: Hash) returns (newer: seq<Hash>, older: seq<Hash>)
    requires h in Recent(history)
    ensures Recent(history) == newer + [h] + older && h !in newer
    ensures Elements(newer) == SinceLast(history, h)
  {
    var front, last := history[..|history| - 1], history[|history| - 1].hash;
    WithoutMembers(Recent(front), last);
    if last == h {
      newer, older := [], Without(Recent(front), last);
    } else {
      var n, o := RecentSplit(front, h);
      WithoutSplit(n + [h], o, last);
      WithoutSplit(n, [h], last);
      assert Without([h], last) == [h];
      WithoutMembers(n, last);
      ElementsWithout(n, last);
      newer, older := [last] + Without(n, last), Without(o, last);
    }
  }

  lemma {:induction false} DistinctSize(hashes: seq<Hash>)
    requires Distinct(hashes)
    ensures |Elements(hashes)| == |hashes|
  {
    if hashes != [] {
      DistinctSize(hashes[1..]);
      ElementsMember(hashes[1..], hashes[0]);
    }
  }

  lemma InPrefix(hashes: seq<Hash>, n: nat, k: nat)
    requires k < |hashes|
    ensures k < n ==> hashes[k] in Prefix(hashes, n)
  {
    if k < n {
      assert hashes[..Min(n, |hashes|)][k] == hashes[k];
    }
  }

  /** A hash that was queried before but has left the C most recent ones was followed by at least C others. */
  lemma EvictedBy(history: seq<Query>, capacity: nat, h: Hash)
    requires h in Recent(history) && h !in Prefix(Recent(history), capacity)
    ensures |SinceLast(history, h)| >= capacity
  {
    var newer, older := RecentSplit(history, h);
    RecentDistinct(history);
    assert Recent(history)[..|newer|] == newer;
    assert Recent(history)[|newer|] == h;
    InPrefix(Recent(history), capacity, |newer|);
    DistinctSize(newer);
  }

  /** A hash is still cached exactly when fewer than C distinct others were queried since. */
  lemma CachedExactly(history: seq<Query>, capacity: nat, h: Hash)
    ensures h in Prefix(Recent(history), capacity) <==> h in Recent(history) && |SinceLast(history, h)| < capacity
  {
    if h in Recent(history) {
      var newer, older := RecentSplit(history, h);
      RecentDistinct(history);
      assert Recent(history)[..|newer|] == newer;
      assert Recent(history)[|newer|] == h;
      DistinctSize(newer);
      InPrefix(Recent(history), capacity, |newer|);
    }
  }

  /** The answer the history determines: duplicate exactly when the hash was queried before, fewer than C distinct others have
      been queried since, and it was let through less than 300 seconds ago. */
  lemma AnswerExactly(history: seq<Query>, capacity: nat, h: Hash, now: nat)
    ensures ExpectedAnswer(history, capacity, h, now)
            <==> && (exists i :: 0 <= i < |history| && history[i].hash == h)
                 && |SinceLast(history, h)| < capacity
                 && LastPassed(history, h).Some? && now < LastPassed(history, h).value + 300_000_000_000
  {
    CachedExactly(history, capacity, h);
    RecentMembers(history, h);
  }

  /** The hashes other than `h` queried strictly between positions i and j. */
  function Between(history: seq<Query>, i: nat, j: nat, h: Hash): set<Hash>
    requires j <= |history|
  {
    set m | i < m < j && history[m].hash != h :: history[m].hash
  }

  lemma {:induction false} SinceLastIsBetween(history: seq<Query>, i: nat, j: nat, h: Hash)
    requires i < j <= |history| && history[i].hash == h
    ensures SinceLast(history[..j], h) <= Between(history, i, j, h)
  {
    var past := history[..j];
    if past[j - 1].hash != h {
      assert past[..j - 1] == history[..j - 1];
      SinceLastIsBetween(history, i, j - 1, h);
      assert history[j - 1].hash in Between(history, i, j, h);
    }
  }

  lemma {:induction false} LastPassedAfter(history: seq<Query>, i: nat, j: nat, h: Hash) returns (p: nat)
    requires i < j <= |history| && history[i].hash == h && !history[i].duplicate
    ensures i <= p < j && LastPassed(history[..j], h) == Some(history[p].at)
  {
    var past := history[..j];
    if past[j - 1].hash == h && !past[j - 1].duplicate {
      p := j - 1;
    } else {
      assert past[..j - 1] == history[..j - 1];
      p := LastPassedAfter(history, i, j - 1, h);
    }
  }

  /** Two times a hash is let through are at least the TTL apart, or at least C distinct other hashes were queried in
      between. */
  lemma DedupGuarantee(history: seq<Query>, capacity: nat, i: nat, j: nat)
    requires Faithful(history, capacity) && i < j < |history|
    requires forall a, b :: 0 <= a < b < |history| ==> history[a].at <= history[b].at
    requires history[i].hash == history[j].hash && !history[i].duplicate && !history[j].duplicate
    ensures history[j].at >= history[i].at + 300_000_000_000
            || |Between(history, i, j, history[i].hash)| >= capacity
  {
    var h, past := history[i].hash, history[..j];
    var p := LastPassedAfter(history, i, j, h);
    assert past[i].hash == h;
    RecentMembers(past, h);
    if h !in Prefix(Recent(past), capacity) {
      EvictedBy(past, capacity, h);
      SinceLastIsBetween(history, i, j, h);
      SubsetSize(SinceLast(past, h), Between(history, i, j, h));
    }
  }

  /** A query answered "duplicate" really follows one of the same hash that was let through less than the TTL ago. */
  lemma DuplicateIsRecent(history: seq<Query>, capacity: nat, j: nat) returns (i: nat)
    requires Faithful(history, capacity) && j < |history| && history[j].duplicate
    ensures i < j && history[i].hash == history[j].hash && !history[i].duplicate
    ensures history[j].at < history[i].at + 300_000_000_000
  {
    i := LastPassedWitness(history[..j], history[j].hash);
  }

  lemma {:induction false} LastPassedWitness(history: seq<Query>, h: Hash) returns (i: nat)
    requires LastPassed(history, h).Some?
    ensures i < |history| && history[i].hash == h && !history[i].duplicate && history[i].at == LastPassed(history, h).value
  {
    i := |history| - 1;
    if history[i].hash != h || history[i].duplicate {
      i := LastPassedWitness(history[..i], h);
    }
  }

  lemma {:induction false} SubsetSize(a: set<Hash>, b: set<Hash>)
    requires a <= b
    ensures |a| <= |b|
  {
    assert b == a + (b - a);
  }

  // One query

  /** Recording a query keeps the stored times right for every other hash. */
  lemma LastPassedAppend(history: seq<Query>, q: Query, h: Hash)
    ensures LastPassed(history + [q], h) == if q.hash == h && !q.duplicate then Some(q.at) else LastPassed(history, h)
  {
    assert (history + [q])[..|history|] == history;
  }

  lemma RecentAppend(history: seq<Query>, q: Query)
    ensures Recent(history + [q]) == [q.hash] + Without(Recent(history), q.hash)
  {
    assert (history + [q])[..|history|] == history;
  }

  lemma FaithfulAppend(history: seq<Query>, q: Query, capacity: nat)
    requires Faithful(history, capacity) && q.duplicate == ExpectedAnswer(history, capacity, q.hash, q.at)
    ensures Faithful(history + [q], capacity)
  {
    var all := history + [q];
    forall j | 0 <= j < |all| ensures all[j].duplicate == ExpectedAnswer(all[..j], capacity, all[j].hash, all[j].at) {
      assert all[..j] == history[..j];
      assert history[..|history|] == history;
    }
  }

  /** What a query does to the entries: a hit moves to the front, with a new time if it had expired; a miss is put in
      front and evicts the least recent entry of a full cache. */
  function Touched(entries: seq<Entry>, capacity: nat, q: Query, k: Option<nat>): seq<Entry>
    requires capacity > 0 && (k.Some? ==> k.value < |entries|)
  {
    match k
    case Some(at) =>
      [if q.duplicate then entries[at] else Entry(q.hash, q.at)] + entries[..at] + entries[at + 1..]
    case None =>
      [Entry(q.hash, q.at)] + (if |entries| < capacity then entries else entries[..capacity - 1])
  }

  lemma KeysOfTouched(entries: seq<Entry>, capacity: nat, q: Query, k: Option<nat>)
    requires capacity > 0 && (k.Some? ==> k.value < |entries| && entries[k.value].hash == q.hash)
    ensures var keys := Keys(entries);
            Keys(Touched(entries, capacity, q, k)) ==
              if k.Some? then [q.hash] + keys[..k.value] + keys[k.value + 1..]
              else [q.hash] + (if |keys| < capacity then keys else keys[..capacity - 1])
  {
  }

  lemma TouchRefines(entries: seq<Entry>, history: seq<Query>, capacity: nat, q: Query, k: Option<nat>)
    requires capacity > 0 && Refines(entries, history, capacity)
    requires k.Some? ==> k.value < |entries| && entries[k.value].hash == q.hash
    requires k.None? ==> q.hash !in Keys(entries) && !q.duplicate
    ensures Refines(Touched(entries, capacity, q, k), history + [q], capacity)
  {
    RecentDistinct(history);
    RecentAppend(history, q);
    KeysOfTouched(entries, capacity, q, k);
    if k.Some? {
      assert Keys(entries)[k.value] == q.hash;
      HitOrder(Recent(history), capacity, k.value);
    } else {
      MissOrder(Recent(history), capacity, q.hash);
    }
    TimesKept(entries, history, capacity, q, k);
  }

  lemma TimesKept(entries: seq<Entry>, history: seq<Query>, capacity: nat, q: Query, k: Option<nat>)
    requires capacity > 0 && Refines(entries, history, capacity)
    requires k.Some? ==> k.value < |entries| && entries[k.value].hash == q.hash
    requires k.None? ==> q.hash !in Keys(entries) && !q.duplicate
    ensures forall e <- Touched(entries, capacity, q, k) :: LastPassed(history + [q], e.hash) == Some(e.seenAt)
  {
    RecentDistinct(history);
    forall e <- Touched(entries, capacity, q, k) ensures LastPassed(history + [q], e.hash) == Some(e.seenAt) {
      LastPassedAppend(history, q, e.hash);
      if e != Touched(entries, capacity, q, k)[0] {
        OthersDiffer(entries, capacity, q, k, e);
      }
    }
  }

  /** The entries behind the front one belong to other hashes. */
  lemma OthersDiffer(entries: seq<Entry>, capacity: nat, q: Query, k: Option<nat>, e: Entry)
    requires capacity > 0 && Distinct(Keys(entries))
    requires k.Some? ==> k.value < |entries| && entries[k.value].hash == q.hash
    requires k.None? ==> q.hash !in Keys(entries)
    requires e in Touched(entries, capacity, q, k) && e != Touched(entries, capacity, q, k)[0]
    ensures e in entries && e.hash != q.hash
  {
    var keys := Keys(entries);
    var i :| 0 <= i < |entries| && entries[i] == e && (k.Some? ==> i != k.value);
    assert keys[i] == e.hash;
    if k.Some? {
      assert keys[k.value] == q.hash;
    }
  }

  class DedupCache {
    const capacity: nat
    /** Most recently used first. */
    var entries: seq<Entry>
    ghost var history: seq<Query>

    ghost predicate Valid()
      reads this
    {
      capacity > 0 && Refines(entries, history, capacity) && Faithful(history, capacity)
    }

    constructor (capacity: nat)
      ensures Valid() && history == [] && this.capacity == Max(capacity, 1)
    {
      this.capacity := Max(capacity, 1);
      entries, history := [], [];
    }

    method Find(hash: Hash) returns (k: Option<nat>)
      ensures k.Some? ==> k.value < |entries| && entries[k.value].hash == hash
      ensures k.None? ==> hash !in Keys(entries)
    {
      for i := 0 to |entries|
        invariant forall j :: 0 <= j < i ==> entries[j].hash != hash
      {
        if entries[i].hash == hash {
          return Some(i);
        }
      }
      k := None;
    }

    /** The cache answers exactly what the whole call history determines. */
    method IsDuplicate(hash: Hash, now: nat) returns (duplicate: bool)
      requires Valid()
      modifies this
      ensures Valid()
      ensures duplicate == ExpectedAnswer(old(history), capacity, hash, now)
      ensures history == old(history) + [Query(hash, now, duplicate)]
    {
      var k := Find(hash);
      duplicate := k.Some? && now < entries[k.value].seenAt + CACHE_ENTRY_TTL;
      ghost var q := Query(hash, now, duplicate);
      assert duplicate == ExpectedAnswer(history, capacity, hash, now) by {
        if k.Some? {
          assert Keys(entries)[k.value] == hash;
          assert LastPassed(history, entries[k.value].hash) == Some(entries[k.value].seenAt);
        }
      }
      TouchRefines(entries, history, capacity, q, k);
      FaithfulAppend(history, q, capacity);
      if k.Some? {
        var front := if duplicate then entries[k.value] else Entry(hash, now);
        entries := [front] + entries[..k.value] + entries[k.value + 1..];
      } else if |entries| < capacity {
        entries := [Entry(hash, now)] + entries;
      } else {
        entries := [Entry(hash, now)] + entries[..capacity - 1];
      }
      history := history + [q];
    }
  }

  // The pipeline behind the cache

  datatype MempoolFilter = MempoolFilter(minValueWei: U256, minGasPriceWei: U256, maxGasPriceWei: U256) {
    predicate Passes(tx: ParsedTransaction) {
      tx.value >= minValueWei && minGasPriceWei <= tx.EffectiveGasPrice() <= maxGasPriceWei
    }
  }

  datatype Fetched = FetchFailed | NotFound | Found(raw: RawTransaction)

  /** An announced hash, what fetching it will answer, and whether the receiving side is still there. */
  datatype Announcement = Announcement(hash: Hash, at: nat, fetched: Fetched, listening: bool)

  /** The announcement is to be forwarded: not a duplicate, fetched, and past the filter. */
  predicate Qualifies(history: seq<Query>, capacity: nat, filter: MempoolFilter, a: Announcement) {
    !ExpectedAnswer(history, capacity, a.hash, a.at) && a.fetched.Found? && filter.Passes(Parse(a.fetched.raw))
  }

  /** The history after the announcements. */
  function Queried(history: seq<Query>, capacity: nat, inbox: seq<Announcement>): seq<Query> {
    if inbox == [] then history
    else
      var before, a := Queried(history, capacity, inbox[..|inbox| - 1]), inbox[|inbox| - 1];
      before + [Query(a.hash, a.at, ExpectedAnswer(before, capacity, a.hash, a.at))]
  }

  /** The transactions to forward. */
  function Forwarded(history: seq<Query>, capacity: nat, filter: MempoolFilter, inbox: seq<Announcement>): seq<ParsedTransaction> {
    if inbox == [] then []
    else
      var front, a := inbox[..|inbox| - 1], inbox[|inbox| - 1];
      Forwarded(history, capacity, filter, front)
      + if Qualifies(Queried(history, capacity, front), capacity, filter, a) then [Parse(a.fetched.raw)] else []
  }

  /** The price a raw transaction offers for its gas: the maximum fee of a type 2 transaction, else the gas price, else 0. */
  function OfferedPrice(raw: RawTransaction): U256 {
    match (if raw.transactionType == Some(2) then raw.maxFeePerGas else raw.gasPrice)
    case Some(price) => price
    case None => 0
  }

  /** What the filter lets through, on the raw transaction. */
  predicate Wanted(filter: MempoolFilter, raw: RawTransaction) {
    raw.value >= filter.minValueWei && filter.minGasPriceWei <= OfferedPrice(raw) <= filter.maxGasPriceWei
  }

  lemma PassesExactly(filter: MempoolFilter, raw: RawTransaction)
    ensures filter.Passes(Parse(raw)) <==> Wanted(filter, raw)
  {
    ParsedPrice(raw);
    hide Parse, ParsedTransaction.EffectiveGasPrice;
  }

  /** Every announcement is one query, in order. */
  lemma {:induction false} QueriesMatch(history: seq<Query>, capacity: nat, inbox: seq<Announcement>)
    ensures var all := Queried(history, capacity, inbox);
            && |all| == |history| + |inbox| && all[..|history|] == history
            && forall i :: 0 <= i < |inbox| ==> all[|history| + i].hash == inbox[i].hash && all[|history| + i].at == inbox[i].at
  {
    if inbox != [] {
      QueriesMatch(history, capacity, inbox[..|inbox| - 1]);
      hide ExpectedAnswer;
    }
  }

  /** The announcement at this position was no duplicate, could be fetched, and is wanted. */
  predicate Let(queries: seq<Query>, from: nat, filter: MempoolFilter, inbox: seq<Announcement>, i: nat)
    requires i < |inbox| && from + i < |queries|
  {
    !queries[from + i].duplicate && inbox[i].fetched.Found? && Wanted(filter, inbox[i].fetched.raw)
  }

  /** The positions of the announcements that are let through. */
  function Positions(queries: seq<Query>, from: nat, filter: MempoolFilter, inbox: seq<Announcement>, n: nat): (at: seq<nat>)
    requires n <= |inbox| && from + |inbox| <= |queries|
    ensures forall k :: 0 <= k < |at| ==> at[k] < n && inbox[at[k]].fetched.Found?
    ensures forall j, k :: 0 <= j < k < |at| ==> at[j] < at[k]
    ensures forall i :: 0 <= i < n ==> (i in at <==> Let(queries, from, filter, inbox, i))
  {
    if n == 0 then []
    else Positions(queries, from, filter, inbox, n - 1) + if Let(queries, from, filter, inbox, n - 1) then [n - 1] else []
  }

  /** What is forwarded: in order, the parsed transactions of exactly the announcements that were no duplicates, could be
      fetched, and offer enough value and an allowed gas price. */
  lemma ForwardedExactly(history: seq<Query>, capacity: nat, filter: MempoolFilter, inbox: seq<Announcement>)
    ensures var queries, forwarded := Queried(history, capacity, inbox), Forwarded(history, capacity, filter, inbox);
            && |queries| == |history| + |inbox|
            && var at := Positions(queries, |history|, filter, inbox, |inbox|);
               && |forwarded| == |at|
               && forall k :: 0 <= k < |at| ==> forwarded[k] == Parse(inbox[at[k]].fetched.raw)
  {
    QueriesMatch(history, capacity, inbox);
    ForwardedUpTo(history, capacity, filter, inbox, |inbox|);
    assert inbox[..|inbox|] == inbox;
  }

  lemma {:induction false} QueriedPrefix(history: seq<Query>, capacity: nat, inbox: seq<Announcement>, n: nat)
    requires n <= |inbox|
    ensures |Queried(history, capacity, inbox)| == |history| + |inbox|
    ensures Queried(history, capacity, inbox[..n]) == Queried(history, capacity, inbox)[..|history| + n]
  {
    QueriesMatch(history, capacity, inbox);
    QueriesMatch(history, capacity, inbox[..n]);
    hide ExpectedAnswer;
    if n == |inbox| {
      assert inbox[..n] == inbox;
    } else {
      var front := inbox[..|inbox| - 1];
      QueriedPrefix(history, capacity, front, n);
      assert front[..n] == inbox[..n];
    }
  }

  lemma ForwardedStep(history: seq<Query>, capacity: nat, filter: MempoolFilter, inbox: seq<Announcement>, n: nat)
    requires n < |inbox|
    ensures Forwarded(history, capacity, filter, inbox[..n + 1])
            == Forwarded(history, capacity, filter, inbox[..n])
               + if Qualifies(Queried(history, capacity, inbox[..n]), capacity, filter, inbox[n]) then [Parse(inbox[n].fetched.raw)] else []
  {
    assert inbox[..n + 1][..n] == inbox[..n];
    hide Queried, Qualifies, Parse;
  }

  lemma {:induction false} ForwardedUpTo(history: seq<Query>, capacity: nat, filter: MempoolFilter, inbox: seq<Announcement>, n: nat)
    requires n <= |inbox| && |Queried(history, capacity, inbox)| == |history| + |inbox|
    ensures var forwarded := Forwarded(history, capacity, filter, inbox[..n]);
            var at := Positions(Queried(history, capacity, inbox), |history|, filter, inbox, n);
            && |forwarded| == |at|
            && forall k :: 0 <= k < |at| ==> forwarded[k] == Parse(inbox[at[k]].fetched.raw)
  {
    hide Queried, ExpectedAnswer, Parse, Let, Qualifies;
    if n > 0 {
      ForwardedUpTo(history, capacity, filter, inbox, n - 1);
      ForwardedStep(history, capacity, filter, inbox, n - 1);
      LetExactly(history, capacity, filter, inbox, n - 1);
    }
  }

  lemma AnswerAt(history: seq<Query>, capacity: nat, inbox: seq<Announcement>, i: nat)
    requires i < |inbox|
    ensures |Queried(history, capacity, inbox)| == |history| + |inbox|
    ensures Queried(history, capacity, inbox)[|history| + i].duplicate
            == ExpectedAnswer(Queried(history, capacity, inbox[..i]), capacity, inbox[i].hash, inbox[i].at)
  {
    QueriedPrefix(history, capacity, inbox, i + 1);
    QueriesMatch(history, capacity, inbox[..i]);
    assert inbox[..i + 1][..i] == inbox[..i];
    hide ExpectedAnswer;
  }

  lemma LetExactly(history: seq<Query>, capacity: nat, filter: MempoolFilter, inbox: seq<Announcement>, i: nat)
    requires i < |inbox| && |Queried(history, capacity, inbox)| == |history| + |inbox|
    ensures Let(Queried(history, capacity, inbox), |history|, filter, inbox, i)
            <==> Qualifies(Queried(history, capacity, inbox[..i]), capacity, filter, inbox[i])
  {
    hide Queried, ExpectedAnswer, Parse, Wanted, MempoolFilter.Passes;
    AnswerAt(history, capacity, inbox, i);
    if inbox[i].fetched.Found? {
      PassesExactly(filter, inbox[i].fetched.raw);
    }
  }

  /** The loop forwards exactly the qualifying transactions, in order, until the receiver is gone. */
  method ProcessPendingHashes(cache: DedupCache, filter: MempoolFilter, inbox: seq<Announcement>)
    returns (output: seq<ParsedTransaction>, processed: nat, stopped: bool)
    requires cache.Valid()
    modifies cache
    ensures cache.Valid() && processed <= |inbox|
    ensures cache.history == Queried(old(cache.history), cache.capacity, inbox[..processed])
    ensures if stopped
            then processed > 0 && !inbox[processed - 1].listening
                 && output == Forwarded(old(cache.history), cache.capacity, filter, inbox[..processed - 1])
                 && Qualifies(Queried(old(cache.history), cache.capacity, inbox[..processed - 1]), cache.capacity, filter, inbox[processed - 1])
            else processed == |inbox| && output == Forwarded(old(cache.history), cache.capacity, filter, inbox)
  {
    output, processed, stopped := [], 0, false;
    while processed < |inbox|
      invariant processed <= |inbox| && cache.Valid()
      invariant cache.history == Queried(old(cache.history), cache.capacity, inbox[..processed])
      invariant !stopped && output == Forwarded(old(cache.history), cache.capacity, filter, inbox[..processed])
    {
      var a := inbox[processed];
      assert inbox[..processed + 1][..processed] == inbox[..processed];
      processed := processed + 1;
      var duplicate := cache.IsDuplicate(a.hash, a.at);
      if duplicate {
        continue;
      }
      if a.fetched.Found? {
        var parsed := Parse(a.fetched.raw);
        if !filter.Passes(parsed) {
          continue;
        }
        if !a.listening {
          stopped := true;
          return;
        }
        output := output + [parsed];
      }
    }
    assert inbox[..processed] == inbox;
  }
}
