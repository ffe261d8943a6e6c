/**
  The result cache as a transition system next to its reference: the unbounded map from URL
  keys to the latest entry stored since the last Clear.

  Every operation carries the clock readings it takes, in order; readings never decrease.
 */
module CacheModel {
  import opened Sequences
  import opened Runs

  /** The cache key of a URL; the hash of its normal form is taken to be collision-free. */
  datatype Key = Key(normalized: string)

  datatype Entry = Entry(result: nat, cachedAt: int, expiresAt: int)

  type Entries = map<Key, Entry>

  const MAX_SIZE: nat := 5000

  /** Entries that Before keeps: what is written to and read from disk. */
  function Live(m: Entries, t: int): Entries {
    map k | k in m && t < m[k].expiresAt :: m[k]
  }

  /** Entries that After does not remove: what Get, eviction and clean-up keep. */
  function Unexpired(m: Entries, t: int): Entries {
    map k | k in m && !(t > m[k].expiresAt) :: m[k]
  }

  function Lookup(m: Entries, k: Key, t: int): Option<Entry> {
    if k in m && !(t > m[k].expiresAt) then Some(m[k]) else None
  }

  predicate Oldest(m: Entries, victim: Key) {
    victim in m && forall k :: k in m ==> m[victim].cachedAt <= m[k].cachedAt
  }

  /** What one eviction may leave, whatever order the map is iterated in. */
  ghost predicate EvictedTo(m: Entries, m': Entries, t: int) {
    var rest := Unexpired(m, t);
    if |rest.Keys| > MAX_SIZE
    then exists v :: Oldest(rest, v) && m' == rest - {v}
    else m' == rest
  }

  // ------------------------------------------------------------------ runs

  /** entries and disk are the program's; latest is the reference; restarted tells of a restart since the last Clear. */
  datatype State = State(entries: Entries, disk: Entries, latest: Entries, now: int, restarted: bool)

  ghost predicate Init(s: State) {
    s.entries == map[] && s.disk == map[] && s.latest == map[] && !s.restarted
  }

  ghost predicate SetStep(s: State, s': State, ttl: int, k: Key, v: nat, t1: int, t2: int, t3: int) {
    && s.now <= t1 <= t2 <= t3 == s'.now
    && var e := Entry(v, t1, t1 + ttl);
       && (if |s.entries[k := e].Keys| > MAX_SIZE then EvictedTo(s.entries[k := e], s'.entries, t2)
           else s'.entries == s.entries[k := e])
       && s'.disk == Live(s'.entries, t3)
       && s'.latest == s.latest[k := e]
       && s'.restarted == s.restarted
  }

  ghost predicate GetStep(s: State, s': State, t: int) {
    s.now <= t && s' == s.(now := t)
  }

  ghost predicate ClearStep(s: State, s': State, t: int) {
    s.now <= t && s' == State(map[], map[], map[], t, false)
  }

  ghost predicate CleanupStep(s: State, s': State, t1: int, t2: int) {
    && s.now <= t1 <= t2
    && var rest := Unexpired(s.entries, t1);
       s' == s.(entries := rest, now := t2, disk := if rest != s.entries then Live(rest, t2) else s.disk)
  }

  /** The process stops and a new one loads the file. */
  ghost predicate RestartStep(s: State, s': State, t: int) {
    s.now <= t && s' == s.(entries := Live(s.disk, t), now := t, restarted := true)
  }

  ghost predicate Next(s: State, s': State, ttl: int) {
    || (exists k, v, t1, t2, t3 :: SetStep(s, s', ttl, k, v, t1, t2, t3))
    || (exists t :: GetStep(s, s', t))
    || (exists t :: ClearStep(s, s', t))
    || (exists t1, t2 :: CleanupStep(s, s', t1, t2))
    || (exists t :: RestartStep(s, s', t))
  }

  ghost function NextFor(ttl: int): (State, State) -> bool {
    (s: State, s': State) => Next(s, s', ttl)
  }

  ghost predicate IsRun(run: seq<State>, ttl: int) {
    IsPath(NextFor(ttl), run) && Init(run[0])
  }

  // ------------------------------------------------------------- invariant

  ghost predicate Within(m: Entries, ref: Entries) {
    forall k :: k in m ==> k in ref && m[k] == ref[k]
  }

  /** Why a key of the reference may be missing although it was never evicted unexpired. */
  ghost predicate Excused(e: Entry, now: int, restarted: bool) {
    e.expiresAt < now || (restarted && e.expiresAt == now)
  }

  /** An unexpired key of the reference that the cache no longer has. */
  ghost predicate Lost(s: State, k: Key) {
    k in s.latest && k !in s.entries && !Excused(s.latest[k], s.now, s.restarted)
  }

  /** The other keys stored at or after the latest Set of k. */
  function Newer(ref: Entries, k: Key): set<Key>
    requires k in ref
  {
    set x | x in ref && x != k && ref[x].cachedAt >= ref[k].cachedAt
  }

  /** A lost key has as many others stored since as the cache can hold, and nothing kept is older. */
  ghost predicate OnlyOldestLost(s: State) {
    forall k :: Lost(s, k) ==>
      && |Newer(s.latest, k)| >= MAX_SIZE
      && forall x :: x in s.entries ==> s.latest[k].cachedAt <= s.entries[x].cachedAt
  }

  /** From now on, disk and memory hold the same unexpired entries. */
  ghost predicate DiskAgrees(s: State) {
    forall k ::
      && (k in s.disk && s.now < s.disk[k].expiresAt ==> k in s.entries && s.entries[k] == s.disk[k])
      && (k in s.entries && s.now < s.entries[k].expiresAt ==> k in s.disk && s.disk[k] == s.entries[k])
  }

  ghost predicate Stamped(m: Entries, ttl: int, now: int) {
    forall k :: k in m ==> m[k].expiresAt == m[k].cachedAt + ttl && m[k].cachedAt <= now
  }

  ghost predicate Inv(s: State, ttl: int) {
    && Within(s.entries, s.latest)
    && |s.entries.Keys| <= MAX_SIZE
    && OnlyOldestLost(s)
    && DiskAgrees(s)
    && Stamped(s.latest, ttl, s.now)
  }

  lemma EvictionShrinks(m: Entries, m': Entries, t: int)
    requires EvictedTo(m, m', t) && |m.Keys| <= MAX_SIZE + 1
    ensures Within(m', m) && |m'.Keys| <= MAX_SIZE
  {
    var rest := Unexpired(m, t);
    SubsetSize(rest.Keys, m.Keys);
    if |rest.Keys| > MAX_SIZE {
      var v :| Oldest(rest, v) && m' == rest - {v};
      assert m'.Keys == rest.Keys - {v};
    }
  }

  /** An unexpired key that an eviction drops leaves a full cache of others, none of them older. */
  lemma EvictedKey(m: Entries, m': Entries, ref: Entries, t: int, k: Key)
    requires EvictedTo(m, m', t) && Within(m, ref) && k in m && k !in m' && !(t > m[k].expiresAt)
    ensures |Newer(ref, k)| >= MAX_SIZE && forall x :: x in m' ==> m[k].cachedAt <= m'[x].cachedAt
  {
    var rest := Unexpired(m, t);
    var v :| Oldest(rest, v) && m' == rest - {v};
    assert v == k;
    assert rest.Keys - {k} <= Newer(ref, k);
    SubsetSize(rest.Keys - {k}, Newer(ref, k));
  }

  /** What a Set makes of the entries, all being those with the new one in. */
  ghost predicate StoredTo(all: Entries, m': Entries, t: int) {
    if |all.Keys| > MAX_SIZE then EvictedTo(all, m', t) else m' == all
  }

  lemma SetEntries(s: State, s': State, ttl: int, k: Key, v: nat, t1: int, t2: int, t3: int)
    requires Within(s.entries, s.latest) && |s.entries.Keys| <= MAX_SIZE
    requires SetStep(s, s', ttl, k, v, t1, t2, t3)
    ensures Within(s'.entries, s'.latest) && |s'.entries.Keys| <= MAX_SIZE
  {
    var all := s.entries[k := Entry(v, t1, t1 + ttl)];
    assert all.Keys == s.entries.Keys + {k};
    if |all.Keys| > MAX_SIZE {
      EvictionShrinks(all, s'.entries, t2);
    }
  }

  /** A later Set of another key adds to what is newer than k. */
  lemma NewerGrows(ref: Entries, k: Key, s: Key, e: Entry)
    requires k in ref && k != s && (s in ref ==> ref[s].cachedAt <= e.cachedAt)
    ensures |Newer(ref, k)| <= |Newer(ref[s := e], k)|
  {
    SubsetSize(Newer(ref, k), Newer(ref[s := e], k));
  }

  lemma SetLosesOnlyOldest(s: State, s': State, ttl: int, k: Key, v: nat, t1: int, t2: int, t3: int, x: Key)
    requires Within(s.entries, s.latest) && OnlyOldestLost(s) && Stamped(s.latest, ttl, s.now)
    requires SetStep(s, s', ttl, k, v, t1, t2, t3) && Lost(s', x)
    ensures |Newer(s'.latest, x)| >= MAX_SIZE
    ensures forall y :: y in s'.entries ==> s'.latest[x].cachedAt <= s'.entries[y].cachedAt
  {
    var e := Entry(v, t1, t1 + ttl);
    var all := s.entries[k := e];
    assert StoredTo(all, s'.entries, t2) && Within(all, s'.latest);
    if x in all {
      EvictedKey(all, s'.entries, s'.latest, t2, x);
    } else {
      assert Lost(s, x);
      NewerGrows(s.latest, x, k, e);
      assert Within(s'.entries, all);
    }
  }

  lemma PersistAgrees(s: State)
    requires s.disk == Live(s.entries, s.now)
    ensures DiskAgrees(s)
  {
  }

  lemma SetKeepsInv(s: State, s': State, ttl: int, k: Key, v: nat, t1: int, t2: int, t3: int)
    requires Inv(s, ttl) && SetStep(s, s', ttl, k, v, t1, t2, t3)
    ensures Inv(s', ttl)
  {
    SetEntries(s, s', ttl, k, v, t1, t2, t3);
    forall x | Lost(s', x)
      ensures |Newer(s'.latest, x)| >= MAX_SIZE
      ensures forall y :: y in s'.entries ==> s'.latest[x].cachedAt <= s'.entries[y].cachedAt
    {
      SetLosesOnlyOldest(s, s', ttl, k, v, t1, t2, t3, x);
    }
    PersistAgrees(s');
  }

  lemma CleanupKeepsInv(s: State, s': State, ttl: int, t1: int, t2: int)
    requires Inv(s, ttl) && CleanupStep(s, s', t1, t2)
    ensures Inv(s', ttl)
  {
    SubsetSize(s'.entries.Keys, s.entries.Keys);
  }

  lemma RestartKeepsInv(s: State, s': State, ttl: int, t: int)
    requires Inv(s, ttl) && RestartStep(s, s', t)
    ensures Inv(s', ttl)
  {
    assert Within(s'.entries, s.entries);
    SubsetSize(s'.entries.Keys, s.entries.Keys);
  }

  lemma PauseKeepsInv(s: State, s': State, ttl: int)
    requires Inv(s, ttl) && exists t :: GetStep(s, s', t) || ClearStep(s, s', t)
    ensures Inv(s', ttl)
  {
  }

  lemma NextKeepsInv(s: State, s': State, ttl: int)
    requires Inv(s, ttl) && Next(s, s', ttl)
    ensures Inv(s', ttl)
  {
    if k, v, t1, t2, t3 :| SetStep(s, s', ttl, k, v, t1, t2, t3) {
      SetKeepsInv(s, s', ttl, k, v, t1, t2, t3);
    } else if t1, t2 :| CleanupStep(s, s', t1, t2) {
      CleanupKeepsInv(s, s', ttl, t1, t2);
    } else if t :| RestartStep(s, s', t) {
      RestartKeepsInv(s, s', ttl, t);
    } else {
      PauseKeepsInv(s, s', ttl);
    }
  }

  ghost function InvFor(ttl: int): State -> bool {
    (s: State) => Inv(s, ttl)
  }

  lemma RunKeepsInv(run: seq<State>, ttl: int, i: nat)
    requires IsRun(run, ttl) && i < |run|
    ensures Inv(run[i], ttl)
  {
    forall s, s' | InvFor(ttl)(s) && NextFor(ttl)(s, s') ensures InvFor(ttl)(s') {
      NextKeepsInv(s, s', ttl);
    }
    InvariantHolds(NextFor(ttl), InvFor(ttl), run, 0, i);
  }

  // -------------------------------------------------------------- theorems

  /** A Set of k to v, which reads t1 as the time of the entry, leads from s to s'. */
  ghost predicate Sets(s: State, s': State, ttl: int, k: Key, v: nat, t1: int) {
    exists t2, t3 :: SetStep(s, s', ttl, k, v, t1, t2, t3)
  }

  ghost predicate Clears(s: State, s': State) {
    exists t :: ClearStep(s, s', t)
  }

  ghost predicate SetAt(run: seq<State>, ttl: int, j: int, k: Key, v: nat, t1: int) {
    0 <= j < |run| - 1 && Sets(run[j], run[j + 1], ttl, k, v, t1)
  }

  ghost predicate ClearAt(run: seq<State>, j: int) {
    0 <= j < |run| - 1 && Clears(run[j], run[j + 1])
  }

  /** Step j is the last Set of k before state i, and no Clear came after it. */
  ghost predicate LastSet(run: seq<State>, ttl: int, i: nat, k: Key, j: int, v: nat, t1: int) {
    && j < i && SetAt(run, ttl, j, k, v, t1)
    && forall l :: j < l < i ==> QuietAt(run, ttl, l, k)
  }

  lemma SetWrites(s: State, s': State, ttl: int, k: Key, v: nat, t1: int, t2: int, t3: int)
    requires SetStep(s, s', ttl, k, v, t1, t2, t3)
    ensures k in s'.latest && s'.latest[k] == Entry(v, t1, t1 + ttl)
  {
  }

  /** A step that neither sets k nor clears leaves the reference alone at k. */
  lemma OtherStepsKeepLatest(s: State, s': State, ttl: int, k: Key)
    requires Next(s, s', ttl) && !Clears(s, s') && forall w, u :: !Sets(s, s', ttl, k, w, u)
    ensures k in s'.latest <==> k in s.latest
    ensures k in s.latest ==> s'.latest[k] == s.latest[k]
  {
    if x, v, t1, t2, t3 :| SetStep(s, s', ttl, x, v, t1, t2, t3) {
      assert Sets(s, s', ttl, x, v, t1);
    }
  }

  /** Step l neither sets k nor clears. */
  ghost predicate QuietAt(run: seq<State>, ttl: int, l: int, k: Key) {
    !ClearAt(run, l) && forall w, u :: !SetAt(run, ttl, l, k, w, u)
  }

  lemma QuietKeepsLatest(run: seq<State>, ttl: int, l: nat, k: Key)
    requires IsPath(NextFor(ttl), run) && l < |run| - 1 && QuietAt(run, ttl, l, k)
    ensures k in run[l + 1].latest <==> k in run[l].latest
    ensures k in run[l].latest ==> run[l + 1].latest[k] == run[l].latest[k]
  {
    StepOf(NextFor(ttl), run, l);
    var s, s' := run[l], run[l + 1];
    forall w, u ensures !Sets(s, s', ttl, k, w, u) {
      assert !SetAt(run, ttl, l, k, w, u);
    }
    OtherStepsKeepLatest(s, s', ttl, k);
  }

  lemma ClearEmpties(s: State, s': State)
    requires Clears(s, s')
    ensures s'.latest == map[]
  {
  }

  lemma {:induction false} LastSetStands(run: seq<State>, ttl: int, i: nat, k: Key, j: nat, v: nat, t1: int)
    requires IsPath(NextFor(ttl), run) && i < |run| && LastSet(run, ttl, i, k, j, v, t1)
    ensures k in run[i].latest && run[i].latest[k] == Entry(v, t1, t1 + ttl)
    decreases i
  {
    if j == i - 1 {
      var s, s' := run[j], run[j + 1];
      var t2, t3 :| SetStep(s, s', ttl, k, v, t1, t2, t3);
      SetWrites(s, s', ttl, k, v, t1, t2, t3);
    } else {
      LastSetStands(run, ttl, i - 1, k, j, v, t1);
      QuietKeepsLatest(run, ttl, i - 1, k);
    }
  }

  lemma {:induction false} LastSetExists(run: seq<State>, ttl: int, i: nat, k: Key)
    requires IsPath(NextFor(ttl), run) && run[0].latest == map[] && i < |run| && k in run[i].latest
    ensures exists j: nat, v, t1 :: LastSet(run, ttl, i, k, j, v, t1)
    decreases i
  {
    var l := i - 1;
    if v, t1 :| SetAt(run, ttl, l, k, v, t1) {
      assert LastSet(run, ttl, i, k, l, v, t1);
    } else {
      KeptKeyWasQuiet(run, ttl, l, k);
      QuietKeepsLatest(run, ttl, l, k);
      LastSetExists(run, ttl, l, k);
      var j: nat, v, t1 :| LastSet(run, ttl, l, k, j, v, t1);
      LastSetLasts(run, ttl, l, k, j, v, t1);
    }
  }

  lemma KeptKeyWasQuiet(run: seq<State>, ttl: int, l: nat, k: Key)
    requires l < |run| - 1 && k in run[l + 1].latest && forall v, t1 :: !SetAt(run, ttl, l, k, v, t1)
    ensures QuietAt(run, ttl, l, k)
  {
    if ClearAt(run, l) {
      ClearEmpties(run[l], run[l + 1]);
    }
  }

  lemma LastSetLasts(run: seq<State>, ttl: int, l: nat, k: Key, j: nat, v: nat, t1: int)
    requires LastSet(run, ttl, l, k, j, v, t1) && QuietAt(run, ttl, l, k)
    ensures LastSet(run, ttl, l + 1, k, j, v, t1)
  {
  }

  /**
    A hit is what the last Set of its key stored: there was such a Set since the last Clear, its
    value and its time are those of the entry, and its TTL is not over.
   */
  lemma HitIsTheLastSet(run: seq<State>, ttl: int, i: nat, k: Key, t: int)
    requires IsRun(run, ttl) && i < |run| && run[i].now <= t
    requires Lookup(run[i].entries, k, t).Some?
    ensures exists j: nat, v, t1 :: LastSet(run, ttl, i, k, j, v, t1)
    ensures
      var e := Lookup(run[i].entries, k, t).value;
      forall j: nat, v, t1 :: LastSet(run, ttl, i, k, j, v, t1) ==>
        e.result == v && e.cachedAt == t1 && e.expiresAt == t1 + ttl && t <= t1 + ttl
    ensures |run[i].entries.Keys| <= 5000
  {
    RunKeepsInv(run, ttl, i);
    LastSetExists(run, ttl, i, k);
    forall j: nat, v, t1 | LastSet(run, ttl, i, k, j, v, t1)
      ensures run[i].latest[k] == Entry(v, t1, t1 + ttl)
    {
      LastSetStands(run, ttl, i, k, j, v, t1);
    }
  }

  /**
    Conversely, a Get answers with what the last Set stored until its TTL is over, as long as
    fewer than 5000 others were stored since; at the exact expiry instant only without a restart.
   */
  lemma LastSetIsAnswered(run: seq<State>, ttl: int, i: nat, k: Key, j: nat, v: nat, t1: int, t: int)
    requires IsRun(run, ttl) && i < |run| && run[i].now <= t && LastSet(run, ttl, i, k, j, v, t1)
    requires k in run[i].latest ==> |Newer(run[i].latest, k)| < 5000
    ensures t < t1 + ttl || (t == t1 + ttl && !run[i].restarted) ==>
              Lookup(run[i].entries, k, t) == Some(Entry(v, t1, t1 + ttl))
    ensures t > t1 + ttl ==> Lookup(run[i].entries, k, t) == None
  {
    RunKeepsInv(run, ttl, i);
    LastSetStands(run, ttl, i, k, j, v, t1);
    assert !Lost(run[i], k);
  }

  /** The cache answers as the unbounded map does, but for an exact expiry instant after a restart. */
  ghost predicate Agrees(s: State, k: Key, t: int) {
    || Lookup(s.entries, k, t) == Lookup(s.latest, k, t)
    || (s.restarted && k in s.latest && k !in s.entries && t == s.latest[k].expiresAt)
  }

  /**
    A key agrees with the unbounded map whenever fewer others than the capacity were stored at
    or after its latest Set, however many keys were ever stored.
   */
  lemma RecentKeyAgrees(run: seq<State>, ttl: int, i: nat, k: Key, t: int)
    requires IsRun(run, ttl) && i < |run| && run[i].now <= t
    requires k in run[i].latest ==> |Newer(run[i].latest, k)| < MAX_SIZE
    ensures Agrees(run[i], k, t)
  {
    RunKeepsInv(run, ttl, i);
    assert !Lost(run[i], k);
  }

  /** Where no two keys were stored at the same instant, the condition is exact for an unexpired key. */
  lemma KeyAgreesIff(run: seq<State>, ttl: int, i: nat, k: Key, t: int)
    requires IsRun(run, ttl) && i < |run| && run[i].now <= t && k in run[i].latest && t < run[i].latest[k].expiresAt
    requires forall x :: x in run[i].latest && x != k ==> run[i].latest[x].cachedAt != run[i].latest[k].cachedAt
    ensures Lookup(run[i].entries, k, t) == Lookup(run[i].latest, k, t) <==> |Newer(run[i].latest, k)| < MAX_SIZE
  {
    RunKeepsInv(run, ttl, i);
    var s := run[i];
    if |Newer(s.latest, k)| < MAX_SIZE {
      assert !Lost(s, k);
    } else if k in s.entries {
      forall x | x in Newer(s.latest, k) ensures x in s.entries {
        assert !Lost(s, x);
      }
      SubsetSize(Newer(s.latest, k) + {k}, s.entries.Keys);
    }
  }

  /** While the reference holds no more unexpired keys than the capacity, every key agrees. */
  lemma CacheAgreesWithUnboundedMap(run: seq<State>, ttl: int, i: nat, k: Key, t: int)
    requires IsRun(run, ttl) && i < |run| && run[i].now <= t && |Unexpired(run[i].latest, t).Keys| <= MAX_SIZE
    ensures Agrees(run[i], k, t)
  {
    RunKeepsInv(run, ttl, i);
    var s := run[i];
    if k in s.latest && !(t > s.latest[k].expiresAt) {
      assert Newer(s.latest, k) + {k} <= Unexpired(s.latest, t).Keys;
      SubsetSize(Newer(s.latest, k) + {k}, Unexpired(s.latest, t).Keys);
      RecentKeyAgrees(run, ttl, i, k, t);
    }
  }

  /** An eviction drops an unexpired entry only if nothing that stays is older. */
  lemma EvictionTakesAnOldest(m: Entries, m': Entries, t: int, k: Key)
    requires EvictedTo(m, m', t) && k in m && k !in m' && !(t > m[k].expiresAt)
    ensures forall o :: o in m' ==> m[k].cachedAt <= m'[o].cachedAt
    ensures forall j :: j in m && j !in m' && !(t > m[j].expiresAt) ==> j == k
  {
  }

  /**
    Restart equivalence: a Get after a restart differs from the Get without it exactly when
    both the load and the Get fall on the entry's expiry instant.
   */
  lemma RestartChangesOnlyTheExpiryInstant(run: seq<State>, ttl: int, i: nat, s': State, t: int, k: Key, u: int)
    requires IsRun(run, ttl) && i < |run| && RestartStep(run[i], s', t) && t <= u
    ensures Lookup(s'.entries, k, u) != Lookup(run[i].entries, k, u)
       <==> k in run[i].entries && t == u == run[i].entries[k].expiresAt
  {
    RunKeepsInv(run, ttl, i);
  }
}
