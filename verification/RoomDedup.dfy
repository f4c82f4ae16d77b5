/** The migration that merges chat rooms of the same club and name and drops old empty ones
    (alembic/versions/n4o5p6q7r8s9_chat_room_dedup_cleanup.py). */
module RoomDedup {
  import opened Common

  type RoomId = nat
  type MessageId = nat
  type BanId = nat

  /** The pair that becomes unique. */
  datatype Group = Group(club: nat, name: string)

  datatype Room = Room(group: Group, event: Option<nat>, created: int)
  datatype Message = Message(room: RoomId, sender: nat, text: string, timestamp: int)

  /** A ban row is its room; the foreign key of `bans` has no cascade. */
  datatype Db = Db(rooms: map<RoomId, Room>, messages: map<MessageId, Message>, bans: map<BanId, RoomId>)

  ghost predicate Linked(db: Db) {
    && (forall m :: m in db.messages ==> db.messages[m].room in db.rooms)
    && (forall b :: b in db.bans ==> db.bans[b] in db.rooms)
  }

  ghost predicate UniqueGroups(rooms: map<RoomId, Room>) {
    forall a, b :: a in rooms && b in rooms && rooms[a].group == rooms[b].group ==> a == b
  }

  // ----- the oldest room of a group -----

  predicate Precedes(rooms: map<RoomId, Room>, a: RoomId, b: RoomId)
    requires a in rooms && b in rooms
  {
    rooms[a].created < rooms[b].created || (rooms[a].created == rooms[b].created && a <= b)
  }

  function Members(rooms: map<RoomId, Room>, g: Group): set<RoomId> {
    set r | r in rooms && rooms[r].group == g
  }

  ghost predicate Oldest(rooms: map<RoomId, Room>, among: set<RoomId>, r: RoomId)
    requires among <= rooms.Keys
  {
    r in among && forall q :: q in among ==> Precedes(rooms, r, q)
  }

  ghost predicate Keeps(rooms: map<RoomId, Room>, g: Group, r: RoomId) {
    Oldest(rooms, Members(rooms, g), r)
  }

  lemma OldestStep(rooms: map<RoomId, Room>, among: set<RoomId>, r: RoomId, q: RoomId)
    requires among <= rooms.Keys && Oldest(rooms, among, r) && q in rooms
    ensures Oldest(rooms, among + {q}, if Precedes(rooms, r, q) then r else q)
  {
  }

  lemma {:induction false} SomeOldest(rooms: map<RoomId, Room>, among: set<RoomId>)
    requires among <= rooms.Keys && among != {}
    ensures exists r :: Oldest(rooms, among, r)
  {
    var q :| q in among;
    if among == {q} {
      assert Oldest(rooms, among, q);
    } else {
      var rest := among - {q};
      SomeOldest(rooms, rest);
      var r :| Oldest(rooms, rest, r);
      assert among == rest + {q};
      OldestStep(rooms, rest, r, q);
    }
  }

  ghost function Keeper(rooms: map<RoomId, Room>, g: Group): (r: RoomId)
    requires Members(rooms, g) != {}
    ensures Keeps(rooms, g, r)
  {
    SomeOldest(rooms, Members(rooms, g));
    var r :| Oldest(rooms, Members(rooms, g), r);
    r
  }

  lemma KeeperIsUnique(rooms: map<RoomId, Room>, g: Group, r: RoomId)
    requires Keeps(rooms, g, r)
    ensures Members(rooms, g) != {} && r == Keeper(rooms, g)
  {
  }

  /** The room is its group's first by creation time, and of several created at once the one with the smallest id. */
  ghost predicate Earliest(rooms: map<RoomId, Room>, r: RoomId) {
    r in rooms && forall q :: q in rooms && rooms[q].group == rooms[r].group ==>
      rooms[r].created < rooms[q].created || (rooms[r].created == rooms[q].created && r <= q)
  }

  lemma KeptIsEarliest(rooms: map<RoomId, Room>, r: RoomId)
    requires r in rooms
    ensures Keeps(rooms, rooms[r].group, r) <==> Earliest(rooms, r)
  {
    assert forall q :: q in Members(rooms, rooms[r].group) <==> q in rooms && rooms[q].group == rooms[r].group;
  }

  // ----- merging -----

  /** The rooms of the groups `gs` become one, their messages move to it. */
  ghost function Merge(db: Db, gs: set<Group>): Db
    requires Linked(db)
  {
    Db((map r | r in db.rooms && (db.rooms[r].group in gs ==> Keeps(db.rooms, db.rooms[r].group, r)) :: db.rooms[r]),
       (map m | m in db.messages :: Moved(db, gs, db.messages[m])),
       db.bans)
  }

  ghost function Moved(db: Db, gs: set<Group>, m: Message): Message
    requires m.room in db.rooms
  {
    var g := db.rooms[m.room].group;
    assert m.room in Members(db.rooms, g);
    if g in gs then m.(room := Keeper(db.rooms, g)) else m
  }

  predicate HasMessage(messages: map<MessageId, Message>, r: RoomId) {
    exists m :: m in messages && messages[m].room == r
  }

  function WithoutOldEmpty(rooms: map<RoomId, Room>, messages: map<MessageId, Message>, cutoff: int): map<RoomId, Room> {
    map r | r in rooms && (HasMessage(messages, r) || rooms[r].created >= cutoff) :: rooms[r]
  }

  function AllGroups(rooms: map<RoomId, Room>): set<Group> {
    set r | r in rooms :: rooms[r].group
  }

  /** The tables after the migration, were there no bans; `cutoff` is 30 days ago. */
  ghost function Target(db: Db, cutoff: int): Db
    requires Linked(db)
  {
    var merged := Merge(db, AllGroups(db.rooms));
    merged.(rooms := WithoutOldEmpty(merged.rooms, merged.messages, cutoff))
  }

  /** Every ban's room is still there. */
  predicate BansLinked(bans: map<BanId, RoomId>, rooms: map<RoomId, Room>) {
    forall b :: b in bans ==> bans[b] in rooms
  }

  /** Every message stays, in a room that is there, with the same club, room name, sender, text and time. */
  lemma MergeKeepsMessages(db: Db, gs: set<Group>)
    requires Linked(db)
    ensures var after := Merge(db, gs);
      && after.messages.Keys == db.messages.Keys
      && (forall m :: m in db.messages ==>
            && after.messages[m].room in after.rooms
            && after.rooms[after.messages[m].room].group == db.rooms[db.messages[m].room].group
            && after.messages[m] == db.messages[m].(room := after.messages[m].room))
  {
    var after := Merge(db, gs);
    forall m | m in db.messages
      ensures after.messages[m].room in after.rooms
        && after.rooms[after.messages[m].room].group == db.rooms[db.messages[m].room].group
    {
      var g := db.rooms[db.messages[m].room].group;
      assert db.messages[m].room in Members(db.rooms, g);
      assert Keeper(db.rooms, g) in Members(db.rooms, g);
    }
  }

  lemma TargetIsUnique(db: Db, cutoff: int)
    requires Linked(db)
    ensures var after := Target(db, cutoff);
      && UniqueGroups(after.rooms)
      && (forall r :: r in after.rooms ==>
            r in db.rooms && after.rooms[r] == db.rooms[r] && Keeps(db.rooms, db.rooms[r].group, r))
  {
    var after := Target(db, cutoff);
    forall r | r in after.rooms ensures Keeps(db.rooms, db.rooms[r].group, r) {
      assert db.rooms[r].group in AllGroups(db.rooms);
    }
    forall a, b | a in after.rooms && b in after.rooms && after.rooms[a].group == after.rooms[b].group ensures a == b {
      KeeperIsUnique(db.rooms, db.rooms[a].group, a);
      KeeperIsUnique(db.rooms, db.rooms[b].group, b);
    }
  }

  /** What the migration promises: names are unique in a club; each message keeps its place and content; a room
      that goes was a younger room of its group, or the whole group had no message and the room was old. */
  lemma TargetKeepsPromises(db: Db, cutoff: int)
    requires Linked(db)
    ensures var after := Target(db, cutoff);
      && UniqueGroups(after.rooms) && after.bans == db.bans
      && after.messages.Keys == db.messages.Keys
      && (forall m :: m in db.messages ==>
            && after.messages[m].room in after.rooms
            && after.rooms[after.messages[m].room].group == db.rooms[db.messages[m].room].group
            && after.messages[m] == db.messages[m].(room := after.messages[m].room))
      && (forall r :: r in after.rooms ==>
            r in db.rooms && after.rooms[r] == db.rooms[r] && Earliest(db.rooms, r))
  {
    var merged := Merge(db, AllGroups(db.rooms));
    var after := Target(db, cutoff);
    MergeKeepsMessages(db, AllGroups(db.rooms));
    TargetIsUnique(db, cutoff);
    forall r | r in after.rooms ensures Earliest(db.rooms, r) {
      KeptIsEarliest(db.rooms, r);
    }
    forall m | m in db.messages ensures after.messages[m].room in after.rooms {
      assert HasMessage(merged.messages, merged.messages[m].room);
    }
  }

  ghost predicate GroupHasMessage(db: Db, g: Group) {
    exists m :: m in db.messages && db.messages[m].room in db.rooms && db.rooms[db.messages[m].room].group == g
  }

  /** Exactly which rooms stay. */
  lemma RoomStays(db: Db, cutoff: int, r: RoomId)
    requires Linked(db) && r in db.rooms
    ensures var g := db.rooms[r].group;
      r in Target(db, cutoff).rooms <==>
        Earliest(db.rooms, r) && (GroupHasMessage(db, g) || db.rooms[r].created >= cutoff)
  {
    var g := db.rooms[r].group;
    KeptIsEarliest(db.rooms, r);
    var merged := Merge(db, AllGroups(db.rooms));
    assert g in AllGroups(db.rooms);
    MergeKeepsMessages(db, AllGroups(db.rooms));
    if Keeps(db.rooms, g, r) {
      KeeperIsUnique(db.rooms, g, r);
      if GroupHasMessage(db, g) {
        var m :| m in db.messages && db.messages[m].room in db.rooms && db.rooms[db.messages[m].room].group == g;
        assert merged.messages[m].room == r;
        assert HasMessage(merged.messages, r);
      }
      if HasMessage(merged.messages, r) {
        var m :| m in merged.messages && merged.messages[m].room == r;
        assert merged.rooms[r].group == db.rooms[db.messages[m].room].group;
        assert GroupHasMessage(db, g);
      }
    }
  }

  /** Run again at the same time, the migration would change nothing. */
  lemma TargetIsStable(db: Db, cutoff: int)
    requires Linked(db) && Linked(Target(db, cutoff))
    ensures Target(Target(db, cutoff), cutoff) == Target(db, cutoff)
  {
    var once := Target(db, cutoff);
    TargetIsUnique(db, cutoff);
    forall r | r in once.rooms ensures Keeps(once.rooms, once.rooms[r].group, r) {
      assert Members(once.rooms, once.rooms[r].group) == {r};
    }
    AloneIsMerged(once);
    assert Merge(once, AllGroups(once.rooms)) == once;
    assert once.rooms == WithoutOldEmpty(once.rooms, once.messages, cutoff);
  }

  lemma AloneIsMerged(db: Db)
    requires Linked(db) && forall r :: r in db.rooms ==> Keeps(db.rooms, db.rooms[r].group, r)
    ensures Merge(db, AllGroups(db.rooms)) == db
  {
  }

  // ----- group by group -----

  ghost predicate Duplicated(rooms: map<RoomId, Room>, g: Group) {
    exists a, b :: a in Members(rooms, g) && b in Members(rooms, g) && a != b
  }

  function WithoutDuplicates(rooms: map<RoomId, Room>, g: Group, keeper: RoomId): map<RoomId, Room> {
    map r | r in rooms && !(rooms[r].group == g && r != keeper) :: rooms[r]
  }

  function Reassigned(rooms: map<RoomId, Room>, messages: map<MessageId, Message>, g: Group, keeper: RoomId)
    : map<MessageId, Message>
  {
    var others := set r | r in rooms && rooms[r].group == g && r != keeper;
    map m | m in messages :: if messages[m].room in others then messages[m].(room := keeper) else messages[m]
  }

  lemma MembersUntouched(db: Db, gs: set<Group>, g: Group)
    requires Linked(db) && g !in gs
    ensures Members(Merge(db, gs).rooms, g) == Members(db.rooms, g)
    ensures forall r :: Keeps(Merge(db, gs).rooms, g, r) <==> Keeps(db.rooms, g, r)
  {
  }

  /** One round of the loop merges one more group. */
  lemma MergeOneMore(db: Db, gs: set<Group>, g: Group, keeper: RoomId)
    requires Linked(db) && g !in gs && Keeps(db.rooms, g, keeper)
    ensures var now := Merge(db, gs); var next := Merge(db, gs + {g});
      && next.rooms == WithoutDuplicates(now.rooms, g, keeper)
      && next.messages == Reassigned(now.rooms, now.messages, g, keeper)
  {
  }

  lemma OnlyDuplicatesMatter(db: Db, gs: set<Group>)
    requires Linked(db) && forall g :: Duplicated(db.rooms, g) ==> g in gs
    ensures Merge(db, gs) == Merge(db, AllGroups(db.rooms))
  {
    var all := AllGroups(db.rooms);
    forall r | r in db.rooms && db.rooms[r].group !in gs ensures Keeps(db.rooms, db.rooms[r].group, r) {
      assert r in Members(db.rooms, db.rooms[r].group);
      assert !Duplicated(db.rooms, db.rooms[r].group);
    }
    forall r | r in db.rooms ensures db.rooms[r].group in all {
    }
    assert Merge(db, gs).rooms == Merge(db, all).rooms;
    forall m | m in db.messages ensures Moved(db, gs, db.messages[m]) == Moved(db, all, db.messages[m]) {
      var room := db.messages[m].room;
      if db.rooms[room].group !in gs {
        KeeperIsUnique(db.rooms, db.rooms[room].group, room);
      }
    }
    assert Merge(db, gs).messages == Merge(db, all).messages;
  }

  class ChatTables {
    var rooms: map<RoomId, Room>
    var messages: map<MessageId, Message>
    var bans: map<BanId, RoomId>

    ghost function Tables(): Db
      reads this
    {
      Db(rooms, messages, bans)
    }

    constructor (rooms: map<RoomId, Room>, messages: map<MessageId, Message>, bans: map<BanId, RoomId>)
      ensures Tables() == Db(rooms, messages, bans)
    {
      this.rooms, this.messages, this.bans := rooms, messages, bans;
    }

    /** The groups with more than one room, each once. */
    method DuplicateGroups() returns (groups: seq<Group>)
      ensures forall g :: g in groups <==> Duplicated(rooms, g)
      ensures forall i, j :: 0 <= i < j < |groups| ==> groups[i] != groups[j]
    {
      var left := set r | r in rooms && |Members(rooms, rooms[r].group)| > 1 :: rooms[r].group;
      forall g ensures g in left <==> Duplicated(rooms, g) {
        MoreThanOne(rooms, g);
      }
      ghost var all := left;
      groups := [];
      while left != {}
        invariant forall g :: g in all <==> g in left || g in groups
        invariant forall g :: g in left ==> g !in groups
        invariant forall i, j :: 0 <= i < j < |groups| ==> groups[i] != groups[j]
        decreases left
      {
        var g :| g in left;
        groups, left := groups + [g], left - {g};
      }
    }

    /** The first room of the group by creation time and id. */
    method FindKeeper(g: Group) returns (keeper: RoomId)
      requires Members(rooms, g) != {}
      ensures Keeps(rooms, g, keeper)
      ensures keeper in rooms && rooms[keeper].group == g && Earliest(rooms, keeper)
    {
      var left := Members(rooms, g);
      keeper :| keeper in left;
      left := left - {keeper};
      while left != {}
        invariant left <= Members(rooms, g) && keeper in Members(rooms, g)
        invariant Oldest(rooms, Members(rooms, g) - left, keeper)
        decreases left
      {
        var r :| r in left;
        OldestStep(rooms, Members(rooms, g) - left, keeper, r);
        assert Members(rooms, g) - left + {r} == Members(rooms, g) - (left - {r});
        if !Precedes(rooms, keeper, r) {
          keeper := r;
        }
        left := left - {r};
      }
      assert Members(rooms, g) - left == Members(rooms, g);
      KeptIsEarliest(rooms, keeper);
    }

    /** Deletes all rooms but those of `kept`, unless a ban points at one of them. */
    method DeleteRooms(kept: map<RoomId, Room>) returns (done: bool)
      requires BansLinked(bans, rooms)
      modifies this`rooms
      ensures done <==> BansLinked(bans, kept)
      ensures rooms == if done then kept else old(rooms)
    {
      done := BansLinked(bans, kept);
      if done {
        rooms := kept;
      }
    }

    /** A failing statement rolls the whole migration back. */
    method Upgrade(cutoff: int) returns (done: bool)
      requires Linked(Tables())
      modifies this
      ensures done <==> BansLinked(bans, Target(old(Tables()), cutoff).rooms)
      ensures Tables() == if done then Target(old(Tables()), cutoff) else old(Tables())
      ensures done ==> Linked(Tables()) && UniqueGroups(rooms)
    {
      ghost var db := Tables();
      var rooms0, messages0 := rooms, messages;
      var groups := DuplicateGroups();
      ghost var merged: set<Group> := {};
      for i := 0 to |groups|
        invariant merged == set k | 0 <= k < i :: groups[k]
        invariant Tables() == Merge(db, merged)
        invariant BansLinked(bans, rooms)
      {
        var g := groups[i];
        assert g !in merged;
        assert Duplicated(db.rooms, g);
        MembersUntouched(db, merged, g);
        var keeper := FindKeeper(g);
        MergeOneMore(db, merged, g, keeper);
        messages := Reassigned(rooms, messages, g, keeper);
        var kept := WithoutDuplicates(rooms, g, keeper);
        done := DeleteRooms(kept);
        if !done {
          Refused(db, cutoff, merged, g, keeper);
          rooms, messages := rooms0, messages0;
          return;
        }
        merged := merged + {g};
      }
      OnlyDuplicatesMatter(db, merged);
      TargetKeepsPromises(db, cutoff);
      done := DeleteRooms(WithoutOldEmpty(rooms, messages, cutoff));
      if !done {
        rooms, messages := rooms0, messages0;
      }
    }
  }

  lemma MoreThanOne(rooms: map<RoomId, Room>, g: Group)
    ensures |Members(rooms, g)| > 1 <==> Duplicated(rooms, g)
  {
    var members := Members(rooms, g);
    if |members| > 1 {
      var a :| a in members;
      var rest := members - {a};
      assert |rest| > 0;
      var b :| b in rest;
      assert b in members && a != b;
    }
    if Duplicated(rooms, g) {
      var a, b :| a in members && b in members && a != b;
      SubsetSize({a, b}, members);
    }
  }

  lemma Refused(db: Db, cutoff: int, gs: set<Group>, g: Group, keeper: RoomId)
    requires Linked(db) && g !in gs && Keeps(db.rooms, g, keeper)
    requires BansLinked(db.bans, Merge(db, gs).rooms)
    requires !BansLinked(db.bans, WithoutDuplicates(Merge(db, gs).rooms, g, keeper))
    ensures !BansLinked(db.bans, Target(db, cutoff).rooms)
  {
  }
}
