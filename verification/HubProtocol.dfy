/**
  One job's slice of the event hub as a transition system. Publish is a critical section that
  records the event and snapshots the live subscribers, followed by sends that run after the
  lock is released; an Unsubscribe is a critical section followed by closing the channel.
  Any number of publishers and subscribers interleave.

  An event is named by its tag, its position in the job's publication order.
 */
module HubProtocol {
  import opened ScanEvents
  import opened Sequences

  type SubId = nat

  const REPLAY_SIZE: nat := 32
  const SEND_CAPACITY: nat := 32

  datatype Membership = Live | LeftAt(published: nat)

  /** buffer is the channel's content; history is everything that ever entered the channel. */
  datatype Sub = Sub(start: nat, joined: nat, membership: Membership, closed: bool,
                     buffer: seq<nat>, history: seq<nat>, dropped: bool)

  /** owed[t] are the subscribers the Publish of tag t still has to send to. */
  datatype State = State(log: seq<Event>, replay: seq<nat>, droppedAt: nat,
                         subs: map<SubId, Sub>, owed: map<nat, set<SubId>>, panicked: bool)

  function Tags(lo: nat, hi: nat): (r: seq<nat>)
    requires lo <= hi
    ensures |r| == hi - lo && forall i :: 0 <= i < |r| ==> r[i] == lo + i
  {
    seq(hi - lo, (i: nat) => lo + i)
  }

  function LiveSubs(s: State): set<SubId> {
    set sid | sid in s.subs && s.subs[sid].membership == Live
  }

  /** A non-blocking channel send. */
  function Offer(sub: Sub, tag: nat): Sub {
    if |sub.buffer| < SEND_CAPACITY
    then sub.(buffer := sub.buffer + [tag], history := sub.history + [tag])
    else sub.(dropped := true)
  }

  function OfferAll(sub: Sub, tags: seq<nat>): Sub
    decreases tags
  {
    if tags == [] then sub else OfferAll(Offer(sub, tags[0]), tags[1..])
  }

  // ---------------------------------------------------------------- steps

  ghost predicate Init(s: State) {
    s == State([], [], 0, map[], map[], false)
  }

  ghost predicate PublishBegin(s: State, s': State, e: Event) {
    s' == s.(log := s.log + [e],
             replay := LastN(s.replay + [|s.log|], REPLAY_SIZE),
             owed := s.owed[|s.log| := LiveSubs(s)])
  }

  /** One send of the Publish of tag t; a send on a closed channel panics. */
  ghost predicate Send(s: State, s': State, t: nat, sid: SubId) {
    && t in s.owed && sid in s.owed[t] && sid in s.subs
    && s' == if s.subs[sid].closed then s.(panicked := true)
             else s.(owed := s.owed[t := s.owed[t] - {sid}],
                     subs := s.subs[sid := Offer(s.subs[sid], t)])
  }

  ghost predicate PublishEnd(s: State, s': State, t: nat) {
    && t in s.owed && s.owed[t] == {}
    && s' == s.(owed := s.owed - {t})
  }

  function NewSub(s: State, withReplay: bool): Sub {
    var n := |s.log|;
    if withReplay
    then OfferAll(Sub(if s.replay == [] then n else s.replay[0], n, Live, false, [], [], false), s.replay)
    else Sub(n, n, Live, false, [], [], false)
  }

  ghost predicate Subscribe(s: State, s': State, sid: SubId, withReplay: bool) {
    && sid !in s.subs
    && s' == s.(subs := s.subs[sid := NewSub(s, withReplay)])
  }

  /** The critical section of Unsubscribe: the last one out drops the replay buffer. */
  ghost predicate Unsubscribe(s: State, s': State, sid: SubId) {
    && sid in s.subs
    && var left := s.(subs := s.subs[sid := s.subs[sid].(membership := LeftAt(|s.log|))]);
       s' == if s.subs[sid].membership != Live then s
             else if LiveSubs(s) == {sid} then left.(replay := [], droppedAt := |s.log|)
             else left
  }

  ghost predicate Close(s: State, s': State, sid: SubId) {
    && sid in s.subs && s.subs[sid].membership != Live
    && s' == s.(subs := s.subs[sid := s.subs[sid].(closed := true)])
  }

  /** The connection's writer takes the next event. */
  ghost predicate Take(s: State, s': State, sid: SubId) {
    && sid in s.subs && |s.subs[sid].buffer| > 0
    && s' == s.(subs := s.subs[sid := s.subs[sid].(buffer := s.subs[sid].buffer[1..])])
  }

  /** Steps that start no Publish and end none. */
  ghost predicate Internal(s: State, s': State) {
    && !s.panicked
    && (|| (exists t, sid :: Send(s, s', t, sid))
        || (exists sid, withReplay :: Subscribe(s, s', sid, withReplay))
        || (exists sid :: Unsubscribe(s, s', sid))
        || (exists sid :: Close(s, s', sid))
        || (exists sid :: Take(s, s', sid)))
  }

  ghost predicate Next(s: State, s': State) {
    || Internal(s, s')
    || (!s.panicked && exists e :: PublishBegin(s, s', e))
    || (!s.panicked && exists t :: PublishEnd(s, s', t))
  }

  /** Next, where a Publish starts only after the previous one has finished its sends. */
  ghost predicate SerialNext(s: State, s': State) {
    || Internal(s, s')
    || (!s.panicked && s.owed == map[] && exists e :: PublishBegin(s, s', e))
    || (!s.panicked && exists t :: PublishEnd(s, s', t))
  }

  // ------------------------------------------------------------ invariant

  /** One past the last tag a subscriber may ever get. */
  function Horizon(sub: Sub, n: nat): nat {
    match sub.membership case Live => n case LeftAt(r) => r
  }

  ghost predicate SubOk(sub: Sub, n: nat) {
    && sub.start <= sub.joined <= Horizon(sub, n) <= n
    && (sub.closed ==> sub.membership != Live)
    && Distinct(sub.history)
    && (forall i :: 0 <= i < |sub.history| ==> sub.start <= sub.history[i] < Horizon(sub, n))
    && |sub.buffer| <= SEND_CAPACITY
    && |sub.buffer| <= |sub.history|
    && sub.buffer == sub.history[|sub.history| - |sub.buffer|..]
  }

  ghost predicate OwedOk(s: State, t: nat, sid: SubId) {
    && sid in s.subs
    && s.subs[sid].joined <= t < Horizon(s.subs[sid], |s.log|)
    && t !in s.subs[sid].history
  }

  ghost predicate ReplayInv(s: State) {
    && s.droppedAt <= |s.log|
    && s.replay == Tags(ReplayFrom(s), |s.log|)
  }

  /** The first tag the replay buffer still holds. */
  function ReplayFrom(s: State): nat {
    if |s.log| > s.droppedAt + REPLAY_SIZE then |s.log| - REPLAY_SIZE else s.droppedAt
  }

  ghost predicate SubsInv(s: State) {
    forall sid :: sid in s.subs ==> SubOk(s.subs[sid], |s.log|)
  }

  ghost predicate OwedInv(s: State) {
    && (forall t :: t in s.owed ==> t < |s.log|)
    && (forall t, sid :: t in s.owed && sid in s.owed[t] ==> OwedOk(s, t, sid))
  }

  ghost predicate Inv(s: State) {
    ReplayInv(s) && SubsInv(s) && OwedInv(s)
  }

  // ------------------------------------------------------ the steps keep it

  /** A channel with room takes every offered tag. */
  lemma {:induction false} OfferAllWithRoom(sub: Sub, tags: seq<nat>)
    requires |sub.buffer| + |tags| <= SEND_CAPACITY
    ensures OfferAll(sub, tags) == sub.(buffer := sub.buffer + tags, history := sub.history + tags)
    decreases tags
  {
    if tags == [] {
      assert sub.buffer + tags == sub.buffer && sub.history + tags == sub.history;
    } else {
      OfferAllWithRoom(Offer(sub, tags[0]), tags[1..]);
      assert sub.buffer + [tags[0]] + tags[1..] == sub.buffer + tags;
      assert sub.history + [tags[0]] + tags[1..] == sub.history + tags;
    }
  }

  lemma NewSubIs(s: State, withReplay: bool)
    requires ReplayInv(s)
    ensures
      var r := if withReplay then s.replay else [];
      NewSub(s, withReplay) ==
        Sub(if withReplay then ReplayFrom(s) else |s.log|, |s.log|, Live, false, r, r, false)
  {
    var n := |s.log|;
    if withReplay {
      var first := if s.replay == [] then n else s.replay[0];
      OfferAllWithRoom(Sub(first, n, Live, false, [], [], false), s.replay);
      assert [] + s.replay == s.replay;
    }
  }

  lemma PublishBeginKeepsReplay(s: State, s': State, e: Event)
    requires ReplayInv(s) && PublishBegin(s, s', e)
    ensures ReplayInv(s')
  {
    var n := |s.log|;
    var whole := s.replay + [n];
    assert whole == Tags(ReplayFrom(s), n + 1);
    assert s'.replay == Tags(ReplayFrom(s'), n + 1);
  }

  lemma PublishBeginKeepsInv(s: State, s': State, e: Event)
    requires Inv(s) && PublishBegin(s, s', e)
    ensures Inv(s')
  {
    PublishBeginKeepsReplay(s, s', e);
    forall sid | sid in s'.subs ensures SubOk(s'.subs[sid], |s'.log|) {
      assert SubOk(s.subs[sid], |s.log|);
    }
    forall t, sid | t in s'.owed && sid in s'.owed[t] ensures OwedOk(s', t, sid) {
      if t == |s.log| {
        assert SubOk(s.subs[sid], |s.log|);
      } else {
        assert OwedOk(s, t, sid);
      }
    }
  }

  lemma OfferKeepsSubOk(sub: Sub, tag: nat, n: nat)
    requires SubOk(sub, n) && sub.joined <= tag < Horizon(sub, n) && tag !in sub.history
    ensures SubOk(Offer(sub, tag), n)
  {
  }

  lemma SendKeepsInv(s: State, s': State, t: nat, sid: SubId)
    requires Inv(s) && Send(s, s', t, sid)
    ensures Inv(s')
  {
    assert OwedOk(s, t, sid);
    OfferKeepsSubOk(s.subs[sid], t, |s.log|);
    if !s.subs[sid].closed {
      forall u, x | u in s'.owed && x in s'.owed[u] ensures OwedOk(s', u, x) {
        assert OwedOk(s, u, x);
      }
    }
  }

  lemma PublishEndKeepsInv(s: State, s': State, t: nat)
    requires Inv(s) && PublishEnd(s, s', t)
    ensures Inv(s')
  {
    forall u, x | u in s'.owed && x in s'.owed[u] ensures OwedOk(s', u, x) {
      assert OwedOk(s, u, x);
    }
  }

  /** A step that rewrites one subscriber without touching what it has received. */
  lemma SubMoveKeepsInv(s: State, s': State, sid: SubId)
    requires SubsInv(s) && OwedInv(s)
    requires s'.log == s.log && s'.owed == s.owed && sid in s'.subs
    requires s'.subs == s.subs[sid := s'.subs[sid]]
    requires SubOk(s'.subs[sid], |s.log|)
    requires sid in s.subs ==>
               && s'.subs[sid].history == s.subs[sid].history
               && s'.subs[sid].joined == s.subs[sid].joined
               && Horizon(s'.subs[sid], |s.log|) == Horizon(s.subs[sid], |s.log|)
    ensures SubsInv(s') && OwedInv(s')
  {
    forall u, x | u in s'.owed && x in s'.owed[u] ensures OwedOk(s', u, x) {
      assert OwedOk(s, u, x);
    }
  }

  lemma SubscribeKeepsInv(s: State, s': State, sid: SubId, withReplay: bool)
    requires Inv(s) && Subscribe(s, s', sid, withReplay)
    ensures Inv(s')
  {
    NewSubIs(s, withReplay);
    SubMoveKeepsInv(s, s', sid);
  }

  lemma UnsubscribeKeepsInv(s: State, s': State, sid: SubId)
    requires Inv(s) && Unsubscribe(s, s', sid)
    ensures Inv(s')
  {
    if s' != s {
      assert SubOk(s.subs[sid], |s.log|);
      SubMoveKeepsInv(s, s', sid);
    }
  }

  lemma CloseOrTakeKeepsInv(s: State, s': State, sid: SubId)
    requires Inv(s) && (Close(s, s', sid) || Take(s, s', sid))
    ensures Inv(s')
  {
    assert SubOk(s.subs[sid], |s.log|);
    SubMoveKeepsInv(s, s', sid);
  }

  lemma InternalKeepsInv(s: State, s': State)
    requires Inv(s) && Internal(s, s')
    ensures Inv(s')
  {
    if t, sid :| Send(s, s', t, sid) {
      SendKeepsInv(s, s', t, sid);
    } else if sid, withReplay :| Subscribe(s, s', sid, withReplay) {
      SubscribeKeepsInv(s, s', sid, withReplay);
    } else if sid :| Unsubscribe(s, s', sid) {
      UnsubscribeKeepsInv(s, s', sid);
    } else {
      var sid :| Close(s, s', sid) || Take(s, s', sid);
      CloseOrTakeKeepsInv(s, s', sid);
    }
  }

  lemma NextKeepsInv(s: State, s': State)
    requires Inv(s) && Next(s, s')
    ensures Inv(s')
  {
    if Internal(s, s') {
      InternalKeepsInv(s, s');
    } else if e :| PublishBegin(s, s', e) {
      PublishBeginKeepsInv(s, s', e);
    } else {
      var t :| PublishEnd(s, s', t);
      PublishEndKeepsInv(s, s', t);
    }
  }

  // -------------------------------------------- serialized publishers

  predicate Owes(s: State, sid: SubId) {
    |s.log| > 0 && |s.log| - 1 in s.owed && sid in s.owed[|s.log| - 1]
  }

  /** One past the last tag a subscriber has been offered so far. */
  function Offered(s: State, sid: SubId): int
    requires sid in s.subs
  {
    Horizon(s.subs[sid], |s.log|) - (if Owes(s, sid) then 1 else 0)
  }

  ghost predicate Increasing(tags: seq<nat>) {
    forall i, j :: 0 <= i < j < |tags| ==> tags[i] < tags[j]
  }

  ghost predicate InOrder(s: State, sid: SubId)
    requires sid in s.subs
  {
    var sub := s.subs[sid];
    && Increasing(sub.history)
    && sub.joined <= Offered(s, sid)
    && sub.start <= Offered(s, sid)
    && (forall i :: 0 <= i < |sub.history| ==> sub.history[i] < Offered(s, sid))
    && (!sub.dropped ==> sub.history == Tags(sub.start, Offered(s, sid)))
  }

  ghost predicate Ordered(s: State) {
    && (forall t :: t in s.owed ==> t == |s.log| - 1)
    && (forall sid :: sid in s.subs ==> InOrder(s, sid))
  }

  ghost predicate SerialInv(s: State) {
    Inv(s) && Ordered(s)
  }

  /** A subscriber that was offered nothing new stays in order. */
  lemma OrderKept(s: State, s': State, sid: SubId)
    requires sid in s.subs && sid in s'.subs && InOrder(s, sid)
    requires s'.subs[sid].history == s.subs[sid].history && s'.subs[sid].dropped == s.subs[sid].dropped
    requires s'.subs[sid].start == s.subs[sid].start && s'.subs[sid].joined == s.subs[sid].joined
    requires Offered(s', sid) == Offered(s, sid)
    ensures InOrder(s', sid)
  {
  }

  lemma PublishKeepsOrder(s: State, s': State, e: Event)
    requires Ordered(s) && s.owed == map[] && PublishBegin(s, s', e)
    ensures Ordered(s')
  {
    forall sid | sid in s'.subs ensures InOrder(s', sid) {
      OrderKept(s, s', sid);
    }
  }

  lemma OfferKeepsOrder(s: State, s': State, t: nat, sid: SubId)
    requires Ordered(s) && Send(s, s', t, sid) && !s.subs[sid].closed
    requires OwedOk(s, t, sid) && SubOk(s.subs[sid], |s.log|)
    ensures InOrder(s', sid)
  {
    assert InOrder(s, sid);
    assert Offered(s', sid) == Offered(s, sid) + 1;
    assert t == Offered(s, sid);
    if !s'.subs[sid].dropped {
      assert s'.subs[sid].history == Tags(s.subs[sid].start, t + 1);
    }
  }

  lemma SendKeepsOrder(s: State, s': State, t: nat, sid: SubId)
    requires SubsInv(s) && OwedInv(s) && Ordered(s) && Send(s, s', t, sid)
    ensures Ordered(s')
  {
    if s.subs[sid].closed {
      forall x | x in s'.subs ensures InOrder(s', x) {
        OrderKept(s, s', x);
      }
    } else {
      OfferKeepsOrder(s, s', t, sid);
      forall x | x in s'.subs && x != sid ensures InOrder(s', x) {
        OrderKept(s, s', x);
      }
    }
  }

  lemma EndKeepsOrder(s: State, s': State, t: nat)
    requires Ordered(s) && PublishEnd(s, s', t)
    ensures Ordered(s')
  {
    forall sid | sid in s'.subs ensures InOrder(s', sid) {
      OrderKept(s, s', sid);
    }
  }

  lemma SubscribeKeepsOrder(s: State, s': State, sid: SubId, withReplay: bool)
    requires ReplayInv(s) && OwedInv(s) && Ordered(s) && Subscribe(s, s', sid, withReplay)
    ensures Ordered(s')
  {
    NewSubIs(s, withReplay);
    assert !Owes(s', sid);
    assert InOrder(s', sid);
    forall x | x in s'.subs && x != sid ensures InOrder(s', x) {
      OrderKept(s, s', x);
    }
  }

  lemma LeaveKeepsOrder(s: State, s': State, sid: SubId)
    requires Ordered(s) && (Unsubscribe(s, s', sid) || Close(s, s', sid) || Take(s, s', sid))
    ensures Ordered(s')
  {
    forall x | x in s'.subs ensures InOrder(s', x) {
      assert Offered(s', x) == Offered(s, x);
      OrderKept(s, s', x);
    }
  }

  lemma InternalKeepsSerialInv(s: State, s': State)
    requires SerialInv(s) && Internal(s, s')
    ensures SerialInv(s')
  {
    InternalKeepsInv(s, s');
    if t, sid :| Send(s, s', t, sid) {
      SendKeepsOrder(s, s', t, sid);
    } else if sid, withReplay :| Subscribe(s, s', sid, withReplay) {
      SubscribeKeepsOrder(s, s', sid, withReplay);
    } else {
      var sid :| Unsubscribe(s, s', sid) || Close(s, s', sid) || Take(s, s', sid);
      LeaveKeepsOrder(s, s', sid);
    }
  }

  lemma SerialNextKeepsInv(s: State, s': State)
    requires SerialInv(s) && SerialNext(s, s')
    ensures SerialInv(s')
  {
    if Internal(s, s') {
      InternalKeepsSerialInv(s, s');
    } else if t :| PublishEnd(s, s', t) {
      PublishEndKeepsInv(s, s', t);
      EndKeepsOrder(s, s', t);
    } else {
      var e :| PublishBegin(s, s', e);
      PublishBeginKeepsInv(s, s', e);
      PublishKeepsOrder(s, s', e);
    }
  }
}
