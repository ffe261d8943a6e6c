/** The cache object and the normalization of URLs into keys. */
module Cache {
  import opened CacheModel
  import opened Sequences

  // ---------------------------------------------------------- normalization

  /** The URL without its trailing slashes. */
  function Normalized(url: string): string {
    if |url| > 0 && url[|url| - 1] == '/' then Normalized(url[..|url| - 1]) else url
  }

  function Slashes(n: nat): string {
    seq(n, i => '/')
  }

  lemma {:induction false} NormalizedSplits(url: string)
    ensures |Normalized(url)| <= |url|
    ensures url == Normalized(url) + Slashes(|url| - |Normalized(url)|)
    ensures Normalized(url) != [] ==> Normalized(url)[|Normalized(url)| - 1] != '/'
  {
    if |url| > 0 && url[|url| - 1] == '/' {
      NormalizedSplits(url[..|url| - 1]);
      var n := |url| - 1 - |Normalized(url)|;
      assert Slashes(n + 1) == Slashes(n) + ['/'];
      assert url == url[..|url| - 1] + ['/'];
    } else {
      assert Slashes(0) == [];
    }
  }

  lemma {:induction false} SlashesVanish(base: string, n: nat)
    ensures Normalized(base + Slashes(n)) == Normalized(base)
    decreases n
  {
    if n == 0 {
      assert base + Slashes(0) == base;
    } else {
      var u := base + Slashes(n);
      assert u[..|u| - 1] == base + Slashes(n - 1);
      SlashesVanish(base, n - 1);
    }
  }

  /** Two URLs share a cache key exactly when they differ only in trailing slashes. */
  lemma SameKeyIff(a: string, b: string)
    ensures Normalized(a) == Normalized(b) <==>
            exists base, i: nat, j: nat :: a == base + Slashes(i) && b == base + Slashes(j)
  {
    if Normalized(a) == Normalized(b) {
      NormalizedSplits(a);
      NormalizedSplits(b);
      assert a == Normalized(a) + Slashes(|a| - |Normalized(a)|) && b == Normalized(a) + Slashes(|b| - |Normalized(a)|);
    }
    if base, i: nat, j: nat :| a == base + Slashes(i) && b == base + Slashes(j) {
      SlashesVanish(base, i);
      SlashesVanish(base, j);
    }
  }

  method NormalizeURL(url: string) returns (out: string)
    ensures out == Normalized(url)
  {
    out := url;
    while |out| > 0 && out[|out| - 1] == '/'
      invariant Normalized(out) == Normalized(url)
    {
      out := out[..|out| - 1];
    }
  }

  // ----------------------------------------------------------------- object

  class Cache {
    var entries: Entries
    var disk: Entries
    var hits: nat
    var misses: nat
    const ttl: int

    /** A new cache loads the entries of the file that have not expired. */
    constructor (ttl: int, file: Entries, now: int)
      ensures entries == Live(file, now) && disk == file && hits == 0 && misses == 0 && this.ttl == ttl
      ensures forall k :: k in entries <==> k in file && now < file[k].expiresAt
    {
      this.ttl := ttl;
      entries := Live(file, now);
      disk := file;
      hits, misses := 0, 0;
    }

    method Get(url: string, now: int) returns (r: Option<Entry>)
      modifies `hits, `misses
      ensures r == Lookup(entries, Key(Normalized(url)), now)
      ensures hits == old(hits) + (if r.Some? then 1 else 0)
      ensures misses == old(misses) + (if r.None? then 1 else 0)
    {
      var norm := NormalizeURL(url);
      var key := Key(norm);
      if key !in entries {
        misses := misses + 1;
        return None;
      }
      if now > entries[key].expiresAt {
        misses := misses + 1;
        return None;
      }
      hits := hits + 1;
      r := Some(entries[key]);
    }

    /** Delete what has expired, in any iteration order. */
    method RemoveExpired(now: int) returns (removed: nat)
      modifies `entries
      ensures entries == Unexpired(old(entries), now)
      ensures forall k :: k in entries <==> k in old(entries) && now <= old(entries)[k].expiresAt
      ensures removed == |old(entries).Keys| - |entries.Keys|
      ensures removed == 0 <==> entries == old(entries)
    {
      removed := 0;
      var rest := entries.Keys;
      while rest != {}
        invariant rest <= entries.Keys <= old(entries).Keys
        invariant forall k :: k in entries ==> entries[k] == old(entries)[k]
        invariant forall k :: k in old(entries) && k !in rest ==>
                    (k in entries <==> !(now > old(entries)[k].expiresAt))
        invariant removed == |old(entries).Keys| - |entries.Keys|
        invariant removed == 0 <==> entries == old(entries)
        decreases rest
      {
        var k :| k in rest;
        if now > entries[k].expiresAt {
          entries := entries - {k};
          removed := removed + 1;
          assert k !in entries;
          assert k in old(entries);
        }
        rest := rest - {k};
      }
      assert entries == Unexpired(old(entries), now);
    }

    method FindOldest() returns (victim: Key)
      requires entries != map[]
      ensures Oldest(entries, victim)
    {
      var first := true;
      victim := Key("");
      var rest := entries.Keys;
      while rest != {}
        invariant rest <= entries.Keys
        invariant first <==> rest == entries.Keys
        invariant !first ==> victim in entries
        invariant !first ==> forall k :: k in entries && k !in rest ==> entries[victim].cachedAt <= entries[k].cachedAt
        decreases rest
      {
        var k :| k in rest;
        if first || entries[k].cachedAt < entries[victim].cachedAt {
          victim := k;
          first := false;
        }
        rest := rest - {k};
      }
      assert entries.Keys != {};
    }

    method EvictOldest(now: int)
      modifies `entries
      ensures EvictedTo(old(entries), entries, now)
    {
      var _ := RemoveExpired(now);
      if |entries.Keys| > MAX_SIZE {
        var victim := FindOldest();
        entries := entries - {victim};
      }
    }

    /** Store, evict when over capacity, persist; t1, t2 and t3 are the clock readings taken. */
    method Set(url: string, result: nat, t1: int, t2: int, t3: int)
      modifies `entries, `disk
      ensures
        var all := old(entries)[Key(Normalized(url)) := Entry(result, t1, t1 + ttl)];
        if |all.Keys| > 5000 then EvictedTo(all, entries, t2) else entries == all
      ensures disk == Live(entries, t3)
      ensures forall k :: k in disk <==> k in entries && t3 < entries[k].expiresAt
    {
      var norm := NormalizeURL(url);
      entries := entries[Key(norm) := Entry(result, t1, t1 + ttl)];
      if |entries.Keys| > MAX_SIZE {
        EvictOldest(t2);
      }
      disk := Live(entries, t3);
    }

    method Clear(now: int)
      modifies `entries, `disk
      ensures entries == map[] && disk == map[]
    {
      entries := map[];
      disk := Live(entries, now);
    }

    method CleanupExpired(t1: int, t2: int) returns (removed: nat)
      modifies `entries, `disk
      ensures entries == Unexpired(old(entries), t1)
      ensures disk == if entries != old(entries) then Live(entries, t2) else old(disk)
      ensures removed == |old(entries).Keys| - |entries.Keys|
    {
      removed := RemoveExpired(t1);
      if removed > 0 {
        disk := Live(entries, t2);
      }
    }
  }

  // ------------------------------------------------- the model's steps

  /** What Set leaves is what the model's Set of the same value leaves. */
  lemma SetIsAStep(s: State, ttl: int, url: string, result: nat, t1: int, t2: int, t3: int, entries: Entries, disk: Entries)
    returns (s': State)
    requires s.now <= t1 <= t2 <= t3
    requires
      var all := s.entries[Key(Normalized(url)) := Entry(result, t1, t1 + ttl)];
      (if |all.Keys| > 5000 then EvictedTo(all, entries, t2) else entries == all) && disk == Live(entries, t3)
    ensures Next(s, s', ttl) && s'.entries == entries && s'.disk == disk
    ensures Sets(s, s', ttl, Key(Normalized(url)), result, t1)
  {
    var k := Key(Normalized(url));
    s' := State(entries, disk, s.latest[k := Entry(result, t1, t1 + ttl)], t3, s.restarted);
    assert SetStep(s, s', ttl, k, result, t1, t2, t3);
  }

  lemma GetIsAStep(s: State, ttl: int, t: int) returns (s': State)
    requires s.now <= t
    ensures Next(s, s', ttl) && s'.entries == s.entries && s'.disk == s.disk && s'.now == t
  {
    s' := s.(now := t);
    assert GetStep(s, s', t);
  }

  lemma ClearIsAStep(s: State, ttl: int, t: int) returns (s': State)
    requires s.now <= t
    ensures Next(s, s', ttl) && Clears(s, s') && s'.entries == map[] && s'.disk == map[]
  {
    s' := State(map[], map[], map[], t, false);
    assert ClearStep(s, s', t);
  }

  lemma CleanupIsAStep(s: State, ttl: int, t1: int, t2: int, entries: Entries, disk: Entries) returns (s': State)
    requires s.now <= t1 <= t2 && entries == Unexpired(s.entries, t1)
    requires disk == if entries != s.entries then Live(entries, t2) else s.disk
    ensures Next(s, s', ttl) && s'.entries == entries && s'.disk == disk
  {
    s' := s.(entries := entries, now := t2, disk := disk);
    assert CleanupStep(s, s', t1, t2);
  }

  /** A new process with the same file is the model's restart. */
  lemma NewCacheIsARestart(s: State, ttl: int, t: int) returns (s': State)
    requires s.now <= t
    ensures Next(s, s', ttl) && s'.entries == Live(s.disk, t) && s'.disk == s.disk
  {
    s' := s.(entries := Live(s.disk, t), now := t, restarted := true);
    assert RestartStep(s, s', t);
  }
}
