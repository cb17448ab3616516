/**
 * A member of a chat room and its presence: going online, going offline,
 * refreshing the last-seen time, and whether the member counts as online
 * now.  Times are whole seconds on one clock, passed in by the caller.
 */
module ChatParticipants {
  import opened Options

  /** The presence columns of a `chat_participants` row. */
  datatype Presence = Presence(isOnline: bool, lastSeenAt: Option<int>, joinedAt: Option<int>, leftAt: Option<int>)

  /** How long a member stays online without being seen again: five minutes. */
  const OnlineWindow := 300

  /** `markAsOnline`: online, seen now, no longer left, and joined now unless already joined. */
  function Online(p: Presence, now: int): (r: Presence)
    ensures r.isOnline && r.lastSeenAt == Some(now) && r.leftAt.None?
    ensures r.joinedAt.Some? && (p.joinedAt.Some? ==> r.joinedAt == p.joinedAt)
  {
    Presence(true, Some(now), if p.joinedAt.Some? then p.joinedAt else Some(now), None)
  }

  /** `markAsOffline`: offline, seen and left now; the join time stays. */
  function Offline(p: Presence, now: int): (r: Presence)
    ensures !r.isOnline && r.lastSeenAt == Some(now) && r.leftAt == Some(now) && r.joinedAt == p.joinedAt
  {
    Presence(false, Some(now), p.joinedAt, Some(now))
  }

  /** `updateLastSeen`: only the last-seen time changes. */
  function Seen(p: Presence, now: int): (r: Presence)
    ensures r.lastSeenAt == Some(now)
    ensures r.isOnline == p.isOnline && r.joinedAt == p.joinedAt && r.leftAt == p.leftAt
  {
    p.(lastSeenAt := Some(now))
  }

  /** Whole minutes between two times, as `diffInMinutes` counts them (absolute, rounded down). */
  function MinutesBetween(a: int, b: int): (r: nat)
    ensures r * 60 <= (if a <= b then b - a else a - b) < (r + 1) * 60
  {
    (if a <= b then b - a else a - b) / 60
  }

  /** `isCurrentlyOnline`: flagged online, seen at some time, and fewer than 5 whole minutes ago. */
  predicate CurrentlyOnline(p: Presence, now: int) {
    p.isOnline && p.lastSeenAt.Some? && MinutesBetween(p.lastSeenAt.value, now) < 5
  }

  /** A member counts as online exactly when flagged online and seen less than 300 seconds from now. */
  lemma CurrentlyOnlineWindow(p: Presence, now: int)
    ensures CurrentlyOnline(p, now) <==>
              p.isOnline && p.lastSeenAt.Some?
              && now - OnlineWindow < p.lastSeenAt.value < now + OnlineWindow
  {
    if p.lastSeenAt.Some? {
      var d := MinutesBetween(p.lastSeenAt.value, now);
      if d >= 5 {
        assert d * 60 >= 300;
      }
    }
  }

  /** Right after going online a member is online for the next 299 seconds, and not from 300 on. */
  lemma OnlineLasts(p: Presence, t: int, now: int)
    requires t <= now
    ensures CurrentlyOnline(Online(p, t), now) <==> now - t < OnlineWindow
  {
    CurrentlyOnlineWindow(Online(p, t), now);
  }

  /** After going offline a member is not online, whatever the time. */
  lemma OfflineNotOnline(p: Presence, t: int, now: int)
    ensures !CurrentlyOnline(Offline(p, t), now)
  {
  }

  /** Refreshing the last-seen time of an online member keeps them online now. */
  lemma SeenKeepsOnline(p: Presence, now: int)
    requires p.isOnline
    ensures CurrentlyOnline(Seen(p, now), now)
  {
  }

  /** The presence operations, as events. */
  datatype Event = GoOnline(at: int) | GoOffline(at: int) | Refresh(at: int)

  function Apply(p: Presence, e: Event): Presence {
    match e
    case GoOnline(t) => Online(p, t)
    case GoOffline(t) => Offline(p, t)
    case Refresh(t) => Seen(p, t)
  }

  function ApplyAll(p: Presence, es: seq<Event>): Presence
    decreases |es|
  {
    if es == [] then p else ApplyAll(Apply(p, es[0]), es[1..])
  }

  /** The join time, once set, never changes again, whatever the member does after. */
  lemma {:induction false} JoinedAtKept(p: Presence, es: seq<Event>)
    requires p.joinedAt.Some?
    ensures ApplyAll(p, es).joinedAt == p.joinedAt
    decreases |es|
  {
    if es != [] {
      JoinedAtKept(Apply(p, es[0]), es[1..]);
    }
  }

  /** A member that never joined joins at the first time they go online. */
  lemma FirstOnlineJoins(p: Presence, es: seq<Event>, t: int)
    requires p.joinedAt.None?
    requires forall i :: 0 <= i < |es| ==> !es[i].GoOnline?
    ensures ApplyAll(p, es + [GoOnline(t)]).joinedAt == Some(t)
  {
    NeverOnlineNeverJoins(p, es);
    ApplyAllAppend(p, es, GoOnline(t));
  }

  lemma {:induction false} NeverOnlineNeverJoins(p: Presence, es: seq<Event>)
    requires p.joinedAt.None?
    requires forall i :: 0 <= i < |es| ==> !es[i].GoOnline?
    ensures ApplyAll(p, es).joinedAt.None?
    decreases |es|
  {
    if es != [] {
      assert !es[0].GoOnline?;
      NeverOnlineNeverJoins(Apply(p, es[0]), es[1..]);
    }
  }

  lemma {:induction false} ApplyAllAppend(p: Presence, es: seq<Event>, e: Event)
    ensures ApplyAll(p, es + [e]) == Apply(ApplyAll(p, es), e)
    decreases |es|
  {
    if es == [] {
      assert ([] + [e])[1..] == [];
    } else {
      assert (es + [e])[1..] == es[1..] + [e];
      ApplyAllAppend(Apply(p, es[0]), es[1..], e);
    }
  }

  /** A `chat_participants` record, updated in place by its methods. */
  class Participant {
    const userId: nat
    const chatRoomId: nat
    var isOnline: bool
    var lastSeenAt: Option<int>
    var joinedAt: Option<int>
    var leftAt: Option<int>

    function State(): Presence
      reads this
    {
      Presence(isOnline, lastSeenAt, joinedAt, leftAt)
    }

    constructor (userId: nat, chatRoomId: nat, initial: Presence)
      ensures this.userId == userId && this.chatRoomId == chatRoomId && State() == initial
    {
      this.userId := userId;
      this.chatRoomId := chatRoomId;
      isOnline := initial.isOnline;
      lastSeenAt := initial.lastSeenAt;
      joinedAt := initial.joinedAt;
      leftAt := initial.leftAt;
    }

    /** `markAsOnline`. */
    method MarkAsOnline(now: int)
      modifies this
      ensures State() == Online(old(State()), now)
    {
      var joined := if joinedAt.Some? then joinedAt else Some(now);
      isOnline, lastSeenAt, joinedAt, leftAt := true, Some(now), joined, None;
    }

    /** `markAsOffline`. */
    method MarkAsOffline(now: int)
      modifies this
      ensures State() == Offline(old(State()), now)
    {
      isOnline, lastSeenAt, leftAt := false, Some(now), Some(now);
    }

    /** `updateLastSeen`. */
    method UpdateLastSeen(now: int)
      modifies this
      ensures State() == Seen(old(State()), now)
    {
      lastSeenAt := Some(now);
    }

    /** `isCurrentlyOnline`. */
    predicate IsCurrentlyOnline(now: int)
      reads this
    {
      CurrentlyOnline(State(), now)
    }
  }
}
