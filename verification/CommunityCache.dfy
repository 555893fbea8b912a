/**
 The in-memory cache of community reads (apps/server/src/community-cache.ts). Each step is the code between two awaits;
 loads, reads and clears may interleave in any order. A value is known by the load that fetched it.
 */
module CommunityCache {
  import opened Wrappers

  const COMMUNITY_READ_TTL_MS := 5 * 60000
  const COMMUNITY_READ_MAX_ENTRIES := 100

  datatype Entry = Entry(key: string, load: nat, value: string, fetchedAt: int)

  datatype Status = Running | Fetched(value: string, fetchedAt: int) | Failed(gone: bool)

  /** One request to the community, and the generation it was started in. */
  datatype Load = Load(key: string, born: nat, status: Status)

  datatype Answer = Value(load: nat, value: string, fetchedAt: int, stale: bool) | Throw

  /** A call of `read`: begun in generation `since`, waiting for a load, or answered. */
  datatype Read = Waiting(key: string, since: nat, load: nat) | Answered(key: string, since: nat, answer: Answer)

  datatype Limits = Limits(ttlMs: int, maxEntries: nat)

  /** `entries` in the order the code's map keeps them, oldest insertion first. */
  datatype State = State(
    entries: seq<Entry>,
    inflight: map<string, nat>,
    generation: nat,
    loads: seq<Load>,
    calls: seq<Read>)

  datatype Event =
    | ReadBegins(key: string, refresh: bool, now: int)
    | LoadSucceeds(load: nat, value: string, now: int)
    | LoadFails(load: nat, gone: bool)
    /** The `finally` of a load, some time after it settled. */
    | LoadFinishes(load: nat)
    | ReadResumes(read: nat)
    | Clear

  // ---------- The entries ----------

  function Lookup(entries: seq<Entry>, key: string): (r: Option<Entry>)
    ensures r.Some? ==> r.value in entries && r.value.key == key
    ensures r.None? ==> forall e :: e in entries ==> e.key != key
  {
    if entries == [] then None
    else if entries[0].key == key then Some(entries[0])
    else Lookup(entries[1..], key)
  }

  function Deleted(entries: seq<Entry>, key: string): (r: seq<Entry>)
    ensures forall e :: e in r <==> e in entries && e.key != key
    ensures |r| <= |entries|
  {
    if entries == [] then []
    else (if entries[0].key == key then [] else [entries[0]]) + Deleted(entries[1..], key)
  }

  function Newest(entries: seq<Entry>, max: nat): (r: seq<Entry>)
    ensures |r| == if |entries| <= max then |entries| else max
  {
    if |entries| <= max then entries else entries[|entries| - max..]
  }

  function Stored(entries: seq<Entry>, e: Entry, max: nat): seq<Entry> {
    Newest(Deleted(entries, e.key) + [e], max)
  }

  predicate DistinctKeys(entries: seq<Entry>) {
    forall i, j :: 0 <= i < j < |entries| ==> entries[i].key != entries[j].key
  }

  predicate Chronological(entries: seq<Entry>) {
    forall i, j :: 0 <= i < j < |entries| ==> entries[i].fetchedAt <= entries[j].fetchedAt
  }

  lemma {:induction false} DeletedKeepsDistinct(entries: seq<Entry>, key: string)
    requires DistinctKeys(entries)
    ensures DistinctKeys(Deleted(entries, key))
  {
    if entries != [] {
      var rest := Deleted(entries[1..], key);
      DeletedKeepsDistinct(entries[1..], key);
      forall i | 0 <= i < |rest| ensures rest[i].key != entries[0].key {
        assert rest[i] in entries[1..];
      }
    }
  }

  lemma {:induction false} DeletedKeepsChronological(entries: seq<Entry>, key: string)
    requires Chronological(entries)
    ensures Chronological(Deleted(entries, key))
  {
    if entries != [] {
      var rest := Deleted(entries[1..], key);
      DeletedKeepsChronological(entries[1..], key);
      forall i | 0 <= i < |rest| ensures entries[0].fetchedAt <= rest[i].fetchedAt {
        assert rest[i] in entries[1..];
      }
    }
  }

  lemma AppendKeepsChronological(entries: seq<Entry>, e: Entry)
    requires Chronological(entries) && forall d :: d in entries ==> d.fetchedAt <= e.fetchedAt
    ensures Chronological(entries + [e])
  {
    forall i | 0 <= i < |entries| ensures entries[i].fetchedAt <= e.fetchedAt {
      assert entries[i] in entries;
    }
  }

  lemma NewestWithoutOldest(entries: seq<Entry>, max: nat)
    requires |entries| > max
    ensures Newest(entries[1..], max) == Newest(entries, max)
  {
  }

  lemma FewAreNewest(entries: seq<Entry>, max: nat)
    requires |entries| <= max
    ensures Newest(entries, max) == entries
  {
  }

  lemma NewestIsSuffix(all: seq<Entry>, max: nat)
    ensures var cut := |all| - |Newest(all, max)|;
            && 0 <= cut && (forall i :: cut <= i < |all| ==> all[i] in Newest(all, max))
            && (forall k :: k in Newest(all, max) ==> exists j :: cut <= j < |all| && all[j] == k)
  {
    var kept := Newest(all, max);
    var cut := |all| - |kept|;
    forall i | cut <= i < |all| ensures all[i] in kept {
      assert kept[i - cut] == all[i];
    }
    forall k | k in kept ensures exists j :: cut <= j < |all| && all[j] == k {
      var j :| 0 <= j < |kept| && kept[j] == k;
      assert all[cut + j] == k;
    }
  }

  lemma NewestStaysChronological(all: seq<Entry>, max: nat)
    requires Chronological(all)
    ensures Chronological(Newest(all, max))
  {
  }

  lemma NewestAreLatest(all: seq<Entry>, max: nat)
    requires Chronological(all)
    ensures Chronological(Newest(all, max))
    ensures forall d, k :: d in all && d !in Newest(all, max) && k in Newest(all, max) ==> d.fetchedAt <= k.fetchedAt
  {
    hide Newest;
    NewestStaysChronological(all, max);
    NewestIsSuffix(all, max);
    forall d, k | d in all && d !in Newest(all, max) && k in Newest(all, max) ensures d.fetchedAt <= k.fetchedAt {
      var i :| 0 <= i < |all| && all[i] == d;
      var j :| |all| - |Newest(all, max)| <= j < |all| && all[j] == k;
      assert i < |all| - |Newest(all, max)|;
    }
  }

  /** Under a clock that does not go back, whatever is evicted was fetched no later than everything kept. */
  lemma EvictionKeepsTheNewest(entries: seq<Entry>, e: Entry, max: nat)
    requires Chronological(entries) && forall d :: d in entries ==> d.fetchedAt <= e.fetchedAt
    ensures Chronological(Stored(entries, e, max)) && |Stored(entries, e, max)| <= max
    ensures forall d, k :: d in entries && d.key != e.key && d !in Stored(entries, e, max) && k in Stored(entries, e, max) ==>
              d.fetchedAt <= k.fetchedAt
  {
    hide Chronological, Newest;
    DeletedKeepsChronological(entries, e.key);
    AppendKeepsChronological(Deleted(entries, e.key), e);
    NewestAreLatest(Deleted(entries, e.key) + [e], max);
  }

  // ---------- Which keys a run of stores keeps ----------

  /** Storing a log of fetches one after the other. */
  function AllStored(log: seq<Entry>, max: nat): seq<Entry> {
    if log == [] then [] else Stored(AllStored(log[..|log| - 1], max), log[|log| - 1], max)
  }

  /** The last fetch of every key in a log, in the order of those last fetches. */
  function LastFetches(log: seq<Entry>): seq<Entry> {
    if log == [] then []
    else Deleted(LastFetches(log[..|log| - 1]), log[|log| - 1].key) + [log[|log| - 1]]
  }

  lemma {:induction false} DeletedSplits(a: seq<Entry>, b: seq<Entry>, key: string)
    ensures Deleted(a + b, key) == Deleted(a, key) + Deleted(b, key)
  {
    if a == [] {
      assert a + b == b;
    } else {
      assert (a + b)[1..] == a[1..] + b;
      DeletedSplits(a[1..], b, key);
    }
  }

  lemma {:induction false} DeletesAtMostOne(entries: seq<Entry>, key: string)
    requires DistinctKeys(entries)
    ensures |Deleted(entries, key)| >= |entries| - 1
    ensures Lookup(entries, key).None? ==> Deleted(entries, key) == entries
  {
    if entries != [] {
      DeletesAtMostOne(entries[1..], key);
      if entries[0].key == key {
        forall e | e in entries[1..] ensures e.key != key {}
        assert Lookup(entries[1..], key).None?;
      } else {
        assert Lookup(entries, key) == Lookup(entries[1..], key);
      }
    }
  }

  lemma {:induction false} LastFetchesDistinct(log: seq<Entry>)
    ensures DistinctKeys(LastFetches(log))
  {
    if log != [] {
      var before, e := LastFetches(log[..|log| - 1]), log[|log| - 1];
      LastFetchesDistinct(log[..|log| - 1]);
      DeletedKeepsDistinct(before, e.key);
      forall i | 0 <= i < |Deleted(before, e.key)| ensures Deleted(before, e.key)[i].key != e.key {
        assert Deleted(before, e.key)[i] in Deleted(before, e.key);
      }
    }
  }

  lemma NewestOfSuffix(older: seq<Entry>, newer: seq<Entry>, max: nat)
    requires |newer| >= max
    ensures Newest(older + newer, max) == Newest(newer, max)
  {
  }

  lemma SuffixDistinct(all: seq<Entry>, cut: nat)
    requires DistinctKeys(all) && cut <= |all|
    ensures DistinctKeys(all[cut..])
  {
  }

  /** Forgetting the older entries before or after storing makes no difference. */
  lemma NewestOfStored(all: seq<Entry>, e: Entry, max: nat)
    requires DistinctKeys(all)
    ensures Newest(Deleted(Newest(all, max), e.key) + [e], max) == Newest(Deleted(all, e.key) + [e], max)
  {
    hide Deleted, DistinctKeys, Lookup;
    if |all| > max {
      var older, newer := all[..|all| - max], all[|all| - max..];
      assert older + newer == all;
      DeletedSplits(older, newer, e.key);
      SuffixDistinct(all, |all| - max);
      DeletesAtMostOne(newer, e.key);
      var rest := Deleted(newer, e.key) + [e];
      assert Deleted(all, e.key) + [e] == Deleted(older, e.key) + rest;
      // At least `max` entries are left of the newer part, so the older part is never reached.
      NewestOfSuffix(Deleted(older, e.key), rest, max);
    }
  }

  /** However long the log, the cache holds exactly the last fetches of the `max` keys fetched last. */
  lemma {:induction false} KeepsTheKeysFetchedLast(log: seq<Entry>, max: nat)
    ensures AllStored(log, max) == Newest(LastFetches(log), max)
  {
    if log != [] {
      KeepsTheKeysFetchedLast(log[..|log| - 1], max);
      LastFetchesDistinct(log[..|log| - 1]);
      NewestOfStored(LastFetches(log[..|log| - 1]), log[|log| - 1], max);
    }
  }

  // ---------- The steps ----------

  predicate Possible(s: State, e: Event) {
    match e
    case LoadSucceeds(l, _, _) => l < |s.loads| && s.loads[l].status == Running
    case LoadFails(l, _) => l < |s.loads| && s.loads[l].status == Running
    case LoadFinishes(l) => l < |s.loads| && s.loads[l].status != Running
    case ReadResumes(r) =>
      r < |s.calls| && s.calls[r].Waiting? && s.calls[r].load < |s.loads| && s.loads[s.calls[r].load].status != Running
    case _ => true
  }

  predicate Fresh(m: Limits, e: Entry, now: int) {
    now - e.fetchedAt < m.ttlMs
  }

  function ReadBegun(m: Limits, s: State, key: string, refresh: bool, now: int): State {
    var entry := Lookup(s.entries, key);
    if !refresh && entry.Some? && Fresh(m, entry.value, now) then
      var hit := Value(entry.value.load, entry.value.value, entry.value.fetchedAt, false);
      s.(calls := s.calls + [Answered(key, s.generation, hit)])
    else if key in s.inflight then
      s.(calls := s.calls + [Waiting(key, s.generation, s.inflight[key])])
    else
      s.(loads := s.loads + [Load(key, s.generation, Running)], inflight := s.inflight[key := |s.loads|],
         calls := s.calls + [Waiting(key, s.generation, |s.loads|)])
  }

  function LoadSucceeded(m: Limits, s: State, l: nat, value: string, now: int): State
    requires l < |s.loads|
  {
    var key := s.loads[l].key;
    s.(loads := s.loads[l := s.loads[l].(status := Fetched(value, now))],
       entries := if s.loads[l].born == s.generation then Stored(s.entries, Entry(key, l, value, now), m.maxEntries) else s.entries)
  }

  function LoadFinished(s: State, l: nat): State
    requires l < |s.loads|
  {
    var key := s.loads[l].key;
    if key in s.inflight && s.inflight[key] == l then s.(inflight := s.inflight - {key}) else s
  }

  function Resumed(s: State, read: Read): (Answer, seq<Entry>)
    requires read.Waiting? && read.load < |s.loads| && s.loads[read.load].status != Running
  {
    match s.loads[read.load].status
    case Fetched(value, fetchedAt) => (Value(read.load, value, fetchedAt, false), s.entries)
    case Failed(gone) =>
      if gone then (Throw, Deleted(s.entries, read.key))
      else
        var older := Lookup(s.entries, read.key);
        (if older.Some? then Value(older.value.load, older.value.value, older.value.fetchedAt, true) else Throw, s.entries)
  }

  function Next(m: Limits, s: State, e: Event): State
    requires Possible(s, e)
  {
    match e
    case ReadBegins(key, refresh, now) => ReadBegun(m, s, key, refresh, now)
    case LoadSucceeds(l, value, now) => LoadSucceeded(m, s, l, value, now)
    case LoadFails(l, gone) => s.(loads := s.loads[l := s.loads[l].(status := Failed(gone))])
    case LoadFinishes(l) => LoadFinished(s, l)
    case ReadResumes(r) =>
      var (answer, entries) := Resumed(s, s.calls[r]);
      s.(calls := s.calls[r := Answered(s.calls[r].key, s.calls[r].since, answer)], entries := entries)
    case Clear => s.(generation := s.generation + 1, entries := [], inflight := map[])
  }

  // ---------- What every step keeps ----------

  /** An entry is what a load of this generation fetched for its key. */
  predicate EntryOk(s: State, e: Entry) {
    e.load < |s.loads| && s.loads[e.load] == Load(e.key, s.generation, Fetched(e.value, e.fetchedAt))
  }

  /** Loads to join are of this generation and of the right key; every running one of this generation is among them. */
  predicate InflightOk(s: State) {
    && (forall key :: key in s.inflight ==>
          s.inflight[key] < |s.loads| && s.loads[s.inflight[key]].key == key && s.loads[s.inflight[key]].born == s.generation)
    && (forall l :: 0 <= l < |s.loads| && s.loads[l].status == Running && s.loads[l].born == s.generation ==>
          s.loads[l].key in s.inflight && s.inflight[s.loads[l].key] == l)
    && (forall l :: 0 <= l < |s.loads| ==> s.loads[l].born <= s.generation)
  }

  /** No two running loads have the same key and generation, whether or not that generation still counts. */
  predicate Single(s: State) {
    forall i, j :: 0 <= i < j < |s.loads| && s.loads[i].status == Running && s.loads[j].status == Running ==>
      s.loads[i].key != s.loads[j].key || s.loads[i].born != s.loads[j].born
  }

  /** A value answered is one that was fetched for the key by a load no older than the read's generation. */
  predicate ReadOk(s: State, r: Read) {
    match r
    case Waiting(key, since, load) => load < |s.loads| && s.loads[load].key == key && s.loads[load].born == since
    case Answered(key, since, Value(load, value, fetchedAt, _)) =>
      && load < |s.loads| && s.loads[load].key == key && since <= s.loads[load].born
      && s.loads[load].status == Fetched(value, fetchedAt)
    case Answered(_, _, Throw) => true
  }

  predicate Inv(m: Limits, s: State) {
    && DistinctKeys(s.entries) && |s.entries| <= m.maxEntries
    && (forall e :: e in s.entries ==> EntryOk(s, e))
    && InflightOk(s) && Single(s)
    && (forall r :: r in s.calls ==> ReadOk(s, r) && r.since <= s.generation)
  }

  /** Loads only ever settle, and keep their key and generation. */
  predicate LoadsGrow(s: State, t: State) {
    && |s.loads| <= |t.loads|
    && forall l :: 0 <= l < |s.loads| ==>
         && t.loads[l].key == s.loads[l].key && t.loads[l].born == s.loads[l].born
         && (s.loads[l].status != Running ==> t.loads[l] == s.loads[l])
  }

  lemma NextGrows(m: Limits, s: State, e: Event)
    requires Possible(s, e)
    ensures LoadsGrow(s, Next(m, s, e))
  {
    hide Deleted, Lookup, Newest;
  }

  lemma GrowthKeepsReads(s: State, t: State)
    requires LoadsGrow(s, t) && forall r :: r in s.calls ==> ReadOk(s, r)
    ensures forall r :: r in s.calls ==> ReadOk(t, r)
  {
  }

  lemma StoredKeepsDistinct(entries: seq<Entry>, e: Entry, max: nat)
    requires DistinctKeys(entries)
    ensures DistinctKeys(Stored(entries, e, max)) && |Stored(entries, e, max)| <= max
    ensures forall d :: d in Stored(entries, e, max) ==> d == e || d in entries
  {
    DeletedKeepsDistinct(entries, e.key);
    forall i | 0 <= i < |Deleted(entries, e.key)| ensures Deleted(entries, e.key)[i].key != e.key {
      assert Deleted(entries, e.key)[i] in Deleted(entries, e.key);
    }
  }

  lemma NextEntries(m: Limits, s: State, e: Event)
    requires Possible(s, e) && Inv(m, s)
    ensures var t := Next(m, s, e);
            DistinctKeys(t.entries) && |t.entries| <= m.maxEntries && forall d :: d in t.entries ==> EntryOk(t, d)
  {
    hide InflightOk, ReadOk, DistinctKeys, Newest;
    match e
    case LoadSucceeds(l, value, now) =>
      StoredKeepsDistinct(s.entries, Entry(s.loads[l].key, l, value, now), m.maxEntries);
    case ReadResumes(r) => DeletedKeepsDistinct(s.entries, s.calls[r].key);
    case Clear => NoneDistinct();
    case _ =>
  }

  lemma NoneDistinct()
    ensures DistinctKeys([])
  {
  }

  lemma NextInflight(m: Limits, s: State, e: Event)
    requires Possible(s, e) && InflightOk(s)
    ensures InflightOk(Next(m, s, e))
  {
    hide Deleted, Lookup, Newest, Stored;
  }

  lemma NextSingle(m: Limits, s: State, e: Event)
    requires Possible(s, e) && InflightOk(s) && Single(s)
    ensures Single(Next(m, s, e))
  {
    hide Deleted, Lookup, Newest, Stored;
  }

  /** A read that settles or begins in this step is answered properly. */
  lemma NextReads(m: Limits, s: State, e: Event)
    requires Possible(s, e) && Inv(m, s)
    ensures forall r :: r in Next(m, s, e).calls ==> ReadOk(Next(m, s, e), r) && r.since <= Next(m, s, e).generation
  {
    hide Deleted, Newest, DistinctKeys, Stored;
    NextGrows(m, s, e);
    GrowthKeepsReads(s, Next(m, s, e));
  }

  lemma NextKeepsInv(m: Limits, s: State, e: Event)
    requires Possible(s, e) && Inv(m, s)
    ensures Inv(m, Next(m, s, e))
  {
    hide InflightOk, Single, ReadOk, DistinctKeys, EntryOk, Possible, Next;
    NextEntries(m, s, e);
    NextInflight(m, s, e);
    NextSingle(m, s, e);
    NextReads(m, s, e);
  }

  // ---------- Whole runs ----------

  const EMPTY := State([], map[], 0, [], [])

  ghost predicate Run(m: Limits, s: State, events: seq<Event>)
    decreases events
  {
    events == [] || (Possible(s, events[0]) && Run(m, Next(m, s, events[0]), events[1..]))
  }

  function After(m: Limits, s: State, events: seq<Event>): State
    requires Run(m, s, events)
    decreases events
  {
    if events == [] then s else After(m, Next(m, s, events[0]), events[1..])
  }

  lemma {:induction false} RunKeepsInv(m: Limits, s: State, events: seq<Event>)
    requires Inv(m, s) && Run(m, s, events)
    ensures Inv(m, After(m, s, events))
    decreases events
  {
    if events != [] {
      NextKeepsInv(m, s, events[0]);
      RunKeepsInv(m, Next(m, s, events[0]), events[1..]);
    }
  }

  /**
   In every interleaving: a read answered with a value got one that a load of its key fetched, and that load began no
   earlier than the generation the read began in. So a read begun after a clear never sees what was requested before it.
   */
  lemma ClearedValuesAreNeverSeen(m: Limits, events: seq<Event>, r: nat)
    requires Run(m, EMPTY, events) && r < |After(m, EMPTY, events).calls|
    requires After(m, EMPTY, events).calls[r].Answered? && After(m, EMPTY, events).calls[r].answer.Value?
    ensures var s := After(m, EMPTY, events);
            var a := s.calls[r].answer;
            && a.load < |s.loads| && s.loads[a.load].key == s.calls[r].key
            && s.loads[a.load].status == Fetched(a.value, a.fetchedAt)
            && s.calls[r].since <= s.loads[a.load].born
  {
    hide Next;
    RunKeepsInv(m, EMPTY, events);
    assert After(m, EMPTY, events).calls[r] in After(m, EMPTY, events).calls;
  }

  /** In every interleaving at most one load of a key and a generation is running, before and after any clears. */
  lemma OneLoadAtATime(m: Limits, events: seq<Event>, i: nat, j: nat)
    requires Run(m, EMPTY, events)
    requires var s := After(m, EMPTY, events);
             && i < |s.loads| && j < |s.loads|
             && s.loads[i].status == Running && s.loads[j].status == Running
             && s.loads[i].key == s.loads[j].key && s.loads[i].born == s.loads[j].born
    ensures i == j
  {
    hide Next;
    RunKeepsInv(m, EMPTY, events);
  }

  /** A read is answered at once exactly when it may use the cache and holds a copy younger than the limit. */
  lemma HitExactlyWhenFresh(m: Limits, s: State, key: string, refresh: bool, now: int)
    requires Inv(m, s)
    ensures var t := Next(m, s, ReadBegins(key, refresh, now));
            var r := t.calls[|s.calls|];
            && r.since == s.generation
            && (r.Answered? <==> !refresh && exists e :: e in s.entries && e.key == key && now - e.fetchedAt < m.ttlMs)
            && (r.Answered? ==> r.answer.Value? && !r.answer.stale && now - r.answer.fetchedAt < m.ttlMs)
            && (r.Waiting? ==> key in t.inflight && t.inflight[key] == r.load)
  {
    hide Deleted, Newest, InflightOk, ReadOk;
    forall e | e in s.entries && e.key == key ensures Lookup(s.entries, key) == Some(e) {
      var f := Lookup(s.entries, key).value;
      var i :| 0 <= i < |s.entries| && s.entries[i] == e;
      var j :| 0 <= j < |s.entries| && s.entries[j] == f;
    }
  }

  // ---------- A clock that does not go back ----------

  function Clock(e: Event): Option<int> {
    match e
    case ReadBegins(_, _, now) => Some(now)
    case LoadSucceeds(_, _, now) => Some(now)
    case _ => None
  }

  predicate Onward(events: seq<Event>, since: int)
    decreases events
  {
    events == []
    || ((Clock(events[0]).Some? ==> since <= Clock(events[0]).value)
        && Onward(events[1..], if Clock(events[0]).Some? then Clock(events[0]).value else since))
  }

  /** Then the entries stay in the order they were fetched, so every eviction in the run is of the oldest. */
  lemma {:induction false} EntriesStayChronological(m: Limits, s: State, events: seq<Event>, since: int)
    requires Run(m, s, events) && Onward(events, since)
    requires Chronological(s.entries) && forall e :: e in s.entries ==> e.fetchedAt <= since
    ensures Chronological(After(m, s, events).entries)
    decreases events
  {
    hide Deleted, Lookup, Newest, Stored;
    if events != [] {
      var t := Next(m, s, events[0]);
      var now := if Clock(events[0]).Some? then Clock(events[0]).value else since;
      match events[0] {
        case LoadSucceeds(l, value, at) =>
          var e := Entry(s.loads[l].key, l, value, at);
          EvictionKeepsTheNewest(s.entries, e, m.maxEntries);
          StoredFrom(s.entries, e, m.maxEntries);
        case ReadResumes(r) => DeletedKeepsChronological(s.entries, s.calls[r].key);
        case _ =>
      }
      EntriesStayChronological(m, t, events[1..], now);
    }
  }

  lemma StoredFrom(entries: seq<Entry>, e: Entry, max: nat)
    ensures forall d :: d in Stored(entries, e, max) ==> d == e || d in entries
  {
  }

  // ---------- What the methods leave ----------

  /** The one entry of a key. */
  ghost predicate Kept(entries: seq<Entry>, e: Entry) {
    e in entries && forall f :: f in entries && f.key == e.key ==> f == e
  }

  ghost predicate NothingKept(entries: seq<Entry>, key: string) {
    forall e :: e in entries ==> e.key != key
  }

  /** The entries but those of one key, in their order. */
  ghost predicate DropsKey(before: seq<Entry>, after: seq<Entry>, key: string) {
    NothingKept(after, key) && (forall e :: e in before && e.key != key ==> e in after) && (forall e :: e in after ==> e in before)
  }

  lemma {:induction false} LookupFindsTheOne(entries: seq<Entry>, key: string)
    requires DistinctKeys(entries)
    ensures Lookup(entries, key).Some? ==> Kept(entries, Lookup(entries, key).value) && Lookup(entries, key).value.key == key
    ensures Lookup(entries, key).None? ==> NothingKept(entries, key)
  {
    if Lookup(entries, key).Some? {
      var e := Lookup(entries, key).value;
      var j :| 0 <= j < |entries| && entries[j] == e;
      forall f | f in entries && f.key == e.key ensures f == e {
        var i :| 0 <= i < |entries| && entries[i] == f;
      }
    }
  }

  /** What was just stored is the newest entry and the only one of its key; of the others at most the oldest go. */
  ghost predicate StoresNewest(before: seq<Entry>, e: Entry, max: nat, after: seq<Entry>) {
    && (max > 0 ==> after != [] && after[|after| - 1] == e && Kept(after, e))
    && |after| <= max
    && (forall f :: f in after ==> f == e || (f in before && f.key != e.key))
    && (|before| < max ==> forall f :: f in before && f.key != e.key ==> f in after)
  }

  lemma StoredIsNewest(entries: seq<Entry>, e: Entry, max: nat)
    requires DistinctKeys(entries)
    ensures StoresNewest(entries, e, max, Stored(entries, e, max))
  {
    hide DistinctKeys;
    StoredKeepsDistinct(entries, e, max);
    var all := Deleted(entries, e.key) + [e];
    var after := Stored(entries, e, max);
    if max > 0 {
      assert after[|after| - 1] == e;
    }
    forall f | f in after ensures f == e || (f in entries && f.key != e.key) {
      assert f in all;
    }
    if |entries| < max { assert after == all; }
  }

  // ---------- The cache ----------

  class CommunityReadCache {
    const limits: Limits
    var entries: seq<Entry>
    var inflight: map<string, nat>
    var generation: nat
    /** Every request and every call so far; the code holds them as promises. */
    var loads: seq<Load>
    var calls: seq<Read>

    ghost function Now(): State
      reads this
    {
      State(entries, inflight, generation, loads, calls)
    }

    constructor (ttlMs: Option<int>, maxEntries: Option<nat>)
      ensures limits.ttlMs == if ttlMs.Some? then ttlMs.value else COMMUNITY_READ_TTL_MS
      ensures limits.maxEntries == if maxEntries.Some? then maxEntries.value else COMMUNITY_READ_MAX_ENTRIES
      ensures Now() == EMPTY && Inv(limits, Now())
    {
      limits := Limits(if ttlMs.Some? then ttlMs.value else COMMUNITY_READ_TTL_MS,
                       if maxEntries.Some? then maxEntries.value else COMMUNITY_READ_MAX_ENTRIES);
      entries, inflight, generation, loads, calls := [], map[], 0, [], [];
    }

    method Read(key: string, refresh: bool, now: int)
      modifies this
      ensures Now() == Next(limits, old(Now()), ReadBegins(key, refresh, now))
      // Answered at once from a young copy that may be used, and otherwise waiting for the one load of the key.
      ensures entries == old(entries) && generation == old(generation) && |calls| == |old(calls)| + 1 && calls[..|old(calls)|] == old(calls)
      ensures Inv(limits, old(Now())) ==>
        if e :| e in old(entries) && e.key == key && !refresh && now - e.fetchedAt < limits.ttlMs
        then calls[|old(calls)|] == Answered(key, generation, Value(e.load, e.value, e.fetchedAt, false)) && loads == old(loads)
        else key in inflight && calls[|old(calls)|] == Waiting(key, generation, inflight[key])
             && (if key in old(inflight) then loads == old(loads) && inflight == old(inflight)
                 else loads == old(loads) + [Load(key, generation, Running)] && inflight == old(inflight)[key := |old(loads)|])
    {
      var entry := Lookup(entries, key);
      if !refresh && entry.Some? && now - entry.value.fetchedAt < limits.ttlMs {
        var hit := Value(entry.value.load, entry.value.value, entry.value.fetchedAt, false);
        calls := calls + [Answered(key, generation, hit)];
        return;
      }
      var load := StartLoad(key);
      calls := calls + [Waiting(key, generation, load)];
    }

    /** Joins the running load of a key, or starts one. */
    method StartLoad(key: string) returns (load: nat)
      modifies this`inflight, this`loads
      ensures key in old(inflight) ==> load == old(inflight)[key] && inflight == old(inflight) && loads == old(loads)
      ensures key !in old(inflight) ==>
        && load == |old(loads)| && inflight == old(inflight)[key := load]
        && loads == old(loads) + [Load(key, generation, Running)]
    {
      if key in inflight { return inflight[key]; }
      load := |loads|;
      loads := loads + [Load(key, generation, Running)];
      inflight := inflight[key := load];
    }

    method SettleLoad(load: nat, value: string, now: int)
      requires Possible(Now(), LoadSucceeds(load, value, now))
      modifies this
      ensures Now() == Next(limits, old(Now()), LoadSucceeds(load, value, now))
      ensures loads == old(loads)[load := Load(old(loads)[load].key, old(loads)[load].born, Fetched(value, now))]
      ensures calls == old(calls) && inflight == old(inflight) && generation == old(generation)
      // Kept as the newest copy, unless the cache was cleared since the load began.
      ensures old(loads)[load].born != generation ==> entries == old(entries)
      ensures Inv(limits, old(Now())) && old(loads)[load].born == generation ==>
        StoresNewest(old(entries), Entry(old(loads)[load].key, load, value, now), limits.maxEntries, entries)
    {
      hide Stored, StoresNewest, DistinctKeys;
      if Inv(limits, Now()) { StoredIsNewest(entries, Entry(loads[load].key, load, value, now), limits.maxEntries); }
      var born, key := loads[load].born, loads[load].key;
      loads := loads[load := loads[load].(status := Fetched(value, now))];
      if born == generation {
        Store(Entry(key, load, value, now));
      }
    }

    method FailLoad(load: nat, gone: bool)
      requires Possible(Now(), LoadFails(load, gone))
      modifies this`loads
      ensures Now() == Next(limits, old(Now()), LoadFails(load, gone))
      ensures loads == old(loads)[load := Load(old(loads)[load].key, old(loads)[load].born, Failed(gone))]
    {
      loads := loads[load := loads[load].(status := Failed(gone))];
    }

    method FinishLoad(load: nat)
      requires Possible(Now(), LoadFinishes(load))
      modifies this`inflight
      ensures Now() == Next(limits, old(Now()), LoadFinishes(load))
      // Nobody joins it any more; a load that took its place stays.
      ensures forall key :: key in inflight <==> key in old(inflight) && !(key == loads[load].key && old(inflight)[key] == load)
      ensures forall key :: key in inflight ==> inflight[key] == old(inflight)[key]
    {
      var key := loads[load].key;
      if key in inflight && inflight[key] == load {
        inflight := inflight - {key};
      }
    }

    method Store(e: Entry)
      modifies this`entries
      ensures entries == Stored(old(entries), e, limits.maxEntries)
    {
      hide Deleted, Newest;
      entries := Deleted(entries, e.key) + [e];
      ghost var all := entries;
      while |entries| > limits.maxEntries
        invariant Newest(entries, limits.maxEntries) == Newest(all, limits.maxEntries)
      {
        NewestWithoutOldest(entries, limits.maxEntries);
        entries := entries[1..];
      }
      FewAreNewest(entries, limits.maxEntries);
    }

    /** What a waiting read does once its load has settled. */
    method ResumeRead(r: nat)
      requires Possible(Now(), ReadResumes(r))
      modifies this`entries, this`calls
      ensures Now() == Next(limits, old(Now()), ReadResumes(r))
      ensures |calls| == |old(calls)| && forall i :: 0 <= i < |calls| && i != r ==> calls[i] == old(calls)[i]
      // The value loaded; or an older copy, marked as stale; or an error, and what is gone is no longer kept.
      ensures var read, status := old(calls)[r], loads[old(calls)[r].load].status;
              calls[r].Answered? && calls[r].key == read.key && calls[r].since == read.since &&
              match status
              case Fetched(value, fetchedAt) => calls[r].answer == Value(read.load, value, fetchedAt, false) && entries == old(entries)
              case Failed(gone) => if gone then calls[r].answer == Throw else entries == old(entries)
              case Running => false
      ensures Inv(limits, old(Now())) && loads[old(calls)[r].load].status.Failed? ==>
        if loads[old(calls)[r].load].status.gone then DropsKey(old(entries), entries, old(calls)[r].key)
        else if e :| e in entries && e.key == old(calls)[r].key then calls[r].answer == Value(e.load, e.value, e.fetchedAt, true)
        else calls[r].answer == Throw
    {
      if Inv(limits, Now()) { LookupFindsTheOne(entries, calls[r].key); }
      var read := calls[r];
      var answer := Throw;
      match loads[read.load].status {
        case Fetched(value, fetchedAt) => answer := Value(read.load, value, fetchedAt, false);
        case Failed(gone) =>
          if gone {
            entries := Deleted(entries, read.key);
          } else {
            var fallback := Lookup(entries, read.key);
            if fallback.Some? {
              answer := Value(fallback.value.load, fallback.value.value, fallback.value.fetchedAt, true);
            }
          }
      }
      calls := calls[r := Answered(read.key, read.since, answer)];
    }

    method ClearAll()
      modifies this
      ensures Now() == Next(limits, old(Now()), Clear)
      ensures generation == old(generation) + 1 && entries == [] && inflight == map[] && loads == old(loads) && calls == old(calls)
    {
      generation := generation + 1;
      entries := [];
      inflight := map[];
    }
  }
}
