/**
  The schedule store object. Getters hand out the stored objects themselves, and the API
  redacts through those pointers, so the aliasing is kept here; each operation is tied to the
  change that the save loop sees.
 */
module ScheduleStore {
  import opened SaveLoop
  import opened Sequences
  import SchedulerProtocol

  type Id = SchedulerProtocol.Id
  type Interval = SchedulerProtocol.Interval

  class Schedule {
    const id: Id
    var interval: Interval
    var enabled: bool
    var webhookURL: string
    var webhookSecret: string
    var hasSecret: bool
    var nextRun: int

    constructor (id: Id, interval: Interval, url: string, secret: string, nextRun: int)
      ensures this.id == id && Record() == ScheduleRecord(interval, true, url, secret, secret != "", nextRun)
    {
      this.id := id;
      this.interval := interval;
      enabled := true;
      webhookURL := url;
      webhookSecret := secret;
      hasSecret := secret != "";
      this.nextRun := nextRun;
    }

    ghost function Record(): ScheduleRecord
      reads this
    {
      ScheduleRecord(interval, enabled, webhookURL, webhookSecret, hasSecret, nextRun)
    }
  }

  class Store {
    var schedules: map<Id, Schedule>
    var log: seq<Delivery>
    var dirty: bool

    /** Each object is stored once, under its own id. */
    ghost predicate Valid()
      reads this
    {
      && (forall id :: id in schedules ==> schedules[id].id == id)
      && |log| <= MAX_LOG
    }

    /** The store's content as a value, as a save would write it. */
    ghost function Value(): Content
      reads this, schedules.Values
    {
      Content(map id | id in schedules :: schedules[id].Record(), log)
    }

    constructor ()
      ensures Valid() && schedules == map[] && log == [] && !dirty
    {
      schedules := map[];
      log := [];
      dirty := false;
    }

    /** The caller's object itself goes into the store. */
    method AddSchedule(sch: Schedule)
      requires Valid()
      modifies this
      ensures Valid() && schedules == old(schedules)[sch.id := sch]
      ensures Value() == Apply(old(Value()), Add(sch.id, sch.Record()))
      ensures dirty && Marks(Add(sch.id, sch.Record()))
    {
      schedules := schedules[sch.id := sch];
      dirty := true;
    }

    method GetSchedule(id: Id) returns (sch: Schedule?)
      ensures sch == if id in schedules then schedules[id] else null
    {
      sch := if id in schedules then schedules[id] else null;
    }

    /** The update of a starting run: the saver is not signalled. */
    method AdvanceNextRun(id: Id, next: int) returns (found: bool)
      requires Valid()
      modifies schedules.Values`nextRun
      ensures Valid() && found == (id in schedules)
      ensures !found ==> Value() == old(Value())
      ensures found ==>
                var ch := Update(id, old(schedules[id].Record()).(nextRun := next));
                Value() == Apply(old(Value()), ch) && !Marks(ch)
    {
      found := id in schedules;
      if found {
        schedules[id].nextRun := next;
        OnlyOneChanged(id);
      }
    }

    /** Writing through the pointer of one stored schedule is one update. */
    twostate lemma OnlyOneChanged(id: Id)
      requires old(Valid()) && schedules == old(schedules) && log == old(log) && id in schedules
      requires forall s :: s in schedules.Values && s.id != id ==> s.Record() == old(s.Record())
      ensures Value() == Apply(old(Value()), Update(id, schedules[id].Record()))
    {
    }

    method DeleteSchedule(id: Id) returns (existed: bool)
      requires Valid()
      modifies `schedules
      ensures Valid() && existed == (id in old(schedules))
      ensures Value() == Apply(old(Value()), Delete(id)) && !Marks(Delete(id))
    {
      existed := id in schedules;
      if existed {
        schedules := schedules - {id};
      }
    }

    method LogDelivery(d: Delivery)
      requires Valid()
      modifies `log, `dirty
      ensures Valid()
      ensures Value() == Apply(old(Value()), Log(d))
      ensures dirty && Marks(Log(d))
    {
      log := log + [d];
      if |log| > MAX_LOG {
        log := log[|log| - MAX_LOG..];
      }
      dirty := true;
    }

    /** The newest n records, newest first; a non-positive or too large n means all of them. */
    method RecentDeliveries(n: int) returns (out: seq<Delivery>)
      ensures |out| == if n <= 0 || n > |log| then |log| else n
      ensures forall k :: 0 <= k < |out| ==> out[k] == log[|log| - 1 - k]
    {
      var want := if n <= 0 || n > |log| then |log| else n;
      out := [];
      var i := |log| - 1;
      while i >= 0 && |out| < want
        invariant -1 <= i < |log| && |out| == |log| - 1 - i && |out| <= want
        invariant forall k :: 0 <= k < |out| ==> out[k] == log[|log| - 1 - k]
      {
        out := out + [log[i]];
        i := i - 1;
      }
    }
  }

  // --------------------------------------------------------------- handlers

  /** What a PATCH may set. */
  datatype Fields = Fields(enabled: Option<bool>, interval: Option<Interval>, url: Option<string>, secret: Option<string>)

  /** The record that a client may see: the secret is gone, and remembered as a flag. */
  function Redacted(r: ScheduleRecord): ScheduleRecord {
    r.(webhookSecret := "", hasSecret := r.hasSecret || r.webhookSecret != "")
  }

  function Patched(r: ScheduleRecord, p: Fields): ScheduleRecord {
    ScheduleRecord(
      if p.interval == Some(SchedulerProtocol.Other) then r.interval else GetOr(p.interval, r.interval),
      GetOr(p.enabled, r.enabled),
      GetOr(p.url, r.webhookURL),
      GetOr(p.secret, r.webhookSecret),
      if p.secret.Some? then p.secret.value != "" else r.hasSecret,
      r.nextRun)
  }

  /** Hide the secret before the object is sent to a client. */
  method RedactSchedule(sch: Schedule)
    modifies sch`hasSecret, sch`webhookSecret
    ensures sch.Record() == Redacted(old(sch.Record()))
    ensures sch.webhookSecret == "" && sch.hasSecret == (old(sch.hasSecret) || old(sch.webhookSecret) != "")
  {
    if sch.webhookSecret != "" {
      sch.hasSecret := true;
    }
    sch.webhookSecret := "";
  }

  /** The update a PATCH runs under the store's lock. */
  method ApplyPatch(s: Schedule, p: Fields)
    modifies s`enabled, s`interval, s`webhookURL, s`webhookSecret, s`hasSecret
    ensures s.Record() == Patched(old(s.Record()), p)
    ensures s.enabled == if p.enabled.Some? then p.enabled.value else old(s.enabled)
    ensures s.interval == if p.interval.Some? && p.interval.value != SchedulerProtocol.Other then p.interval.value
                          else old(s.interval)
    ensures s.webhookURL == if p.url.Some? then p.url.value else old(s.webhookURL)
    ensures s.webhookSecret == if p.secret.Some? then p.secret.value else old(s.webhookSecret)
    ensures s.hasSecret == if p.secret.Some? then p.secret.value != "" else old(s.hasSecret)
  {
    if p.enabled.Some? {
      s.enabled := p.enabled.value;
    }
    if p.interval.Some? && p.interval.value != SchedulerProtocol.Other {
      s.interval := p.interval.value;
    }
    if p.url.Some? {
      s.webhookURL := p.url.value;
    }
    if p.secret.Some? {
      s.webhookSecret := p.secret.value;
      s.hasSecret := p.secret.value != "";
    }
  }

  method StoreAndRedact(store: Store, sch: Schedule)
    requires store.Valid() && sch.id !in store.schedules
    modifies store, sch`hasSecret, sch`webhookSecret
    ensures store.Valid() && store.schedules == old(store.schedules)[sch.id := sch] && store.dirty
    ensures store.Value() == Apply(old(store.Value()), Add(sch.id, Redacted(old(sch.Record()))))
  {
    store.AddSchedule(sch);
    RedactSchedule(sch);
  }

  /**
    POST: the response object is the stored object, so redacting the one erases the secret of
    the other; what stays in the store is the redacted record.
   */
  method HandlePost(store: Store, id: Id, interval: Interval, url: string, secret: string, now: int)
    returns (sch: Schedule)
    requires store.Valid() && id !in store.schedules
    modifies store
    ensures store.Valid() && fresh(sch) && store.schedules == old(store.schedules)[id := sch] && store.dirty
    ensures
      var r := ScheduleRecord(interval, true, url, secret, secret != "", now + SchedulerProtocol.IntervalDur(interval));
      store.Value() == Apply(old(store.Value()), Add(id, Redacted(r)))
  {
    sch := new Schedule(id, interval, url, secret, now + SchedulerProtocol.IntervalDur(interval));
    StoreAndRedact(store, sch);
  }

  /** GET: the stored object is redacted in place. */
  method HandleGet(store: Store, id: Id) returns (sch: Schedule?)
    requires store.Valid()
    modifies store.schedules.Values`hasSecret, store.schedules.Values`webhookSecret
    ensures store.Valid() && sch == if id in store.schedules then store.schedules[id] else null
    ensures store.Value() == if sch == null then old(store.Value())
                             else Apply(old(store.Value()), Update(id, Redacted(old(store.schedules[id].Record()))))
  {
    sch := store.GetSchedule(id);
    if sch != null {
      RedactSchedule(sch);
      store.OnlyOneChanged(id);
    }
  }

  /** PATCH: the new secret is stored under the lock and erased right after it. */
  method HandlePatch(store: Store, id: Id, p: Fields) returns (sch: Schedule?)
    requires store.Valid()
    modifies store.schedules.Values`enabled, store.schedules.Values`interval, store.schedules.Values`webhookURL,
             store.schedules.Values`webhookSecret, store.schedules.Values`hasSecret
    ensures store.Valid() && sch == if id in store.schedules then store.schedules[id] else null
    ensures store.Value() == if sch == null then old(store.Value())
                             else Apply(old(store.Value()), Update(id, Redacted(Patched(old(store.schedules[id].Record()), p))))
  {
    sch := store.GetSchedule(id);
    if sch != null {
      ApplyPatch(sch, p);
      RedactSchedule(sch);
      store.OnlyOneChanged(id);
    }
  }

  /** No stored schedule holds a secret. */
  ghost predicate NoSecrets(c: Content) {
    forall id :: id in c.schedules ==> c.schedules[id].webhookSecret == ""
  }

  /** What a completed request writes adds no secret to a store that has none. */
  lemma RedactedChangesAddNoSecret(c: Content, id: Id, r: ScheduleRecord)
    requires NoSecrets(c)
    ensures NoSecrets(Apply(c, Add(id, Redacted(r)))) && NoSecrets(Apply(c, Update(id, Redacted(r))))
  {
  }
}
