/** The map from descriptors to events, the changelist that collects changes between dispatches, and epoll. */
module EvMap {
  /** EV_READ and EV_WRITE, or EPOLLIN and EPOLLOUT */
  datatype Interest = Interest(read: bool, write: bool)

  const NOTHING := Interest(false, false)

  /** read_change or write_change: no flag, EV_CHANGE_ADD or EV_CHANGE_DEL */
  datatype Edit = Keep | Add | Del

  /** struct event_change */
  datatype Change = Change(fd: int, oldEvents: Interest, read: Edit, write: Edit)

  /** struct event, as far as the map looks at it */
  class Event {
    const fd: int
    const events: Interest

    constructor (fd: int, events: Interest)
      ensures this.fd == fd && this.events == events
    {
      this.fd := fd;
      this.events := events;
    }
  }

  /** struct evmap_io, with the event_changelist_fdinfo that follows it in memory */
  datatype IoSlot = IoSlot(events: seq<Event>, nread: int, nwrite: int, idxplus1: int) {
    /** What the events of the slot want from the backend. */
    function Wanted(): Interest {
      Interest(nread > 0, nwrite > 0)
    }
  }

  const EMPTY_SLOT := IoSlot([], 0, 0, 0)

  // ----- the kernel -----

  datatype Op = CtlAdd | CtlMod | CtlDel

  datatype Errno = Ok | Eexist | Enoent

  /** What the kernel reports for a descriptor. */
  function Registered(interest: map<int, Interest>, fd: int): Interest {
    if fd in interest then interest[fd] else NOTHING
  }

  /** An epoll instance with descriptors that are not closed behind its back. */
  class Epoll {
    var interest: map<int, Interest>
    /** the number of calls that were refused */
    ghost var refused: nat

    constructor ()
      ensures interest == map[] && refused == 0
    {
      interest, refused := map[], 0;
    }

    /** epoll_ctl */
    method Ctl(op: Op, fd: int, events: Interest) returns (errno: Errno)
      modifies this
      ensures errno == match op
                       case CtlAdd => if fd in old(interest) then Eexist else Ok
                       case _ => if fd in old(interest) then Ok else Enoent
      ensures interest == if errno != Ok then old(interest)
                          else if op == CtlDel then old(interest) - {fd}
                          else old(interest)[fd := events]
      ensures refused == old(refused) + if errno == Ok then 0 else 1
    {
      errno := Ok;
      match op {
        case CtlAdd => if fd in interest { errno := Eexist; }
        case CtlMod => if fd !in interest { errno := Enoent; }
        case CtlDel => if fd !in interest { errno := Enoent; }
      }
      if errno != Ok {
        refused := refused + 1;
      } else if op == CtlDel {
        interest := interest - {fd};
      } else {
        interest := interest[fd := events];
      }
    }

    /** epoll_apply_one_change.  Whatever the kernel knew before, it ends with the net effect of the change;
        if the record of the old events is right, no call is refused. */
    method ApplyOneChange(ch: Change) returns (r: int)
      modifies this
      ensures r == 0
      ensures ch.read == Keep && ch.write == Keep ==> interest == old(interest)
      ensures ch.read != Keep || ch.write != Keep ==> Registered(interest, ch.fd) == Net(ch)
      ensures forall fd :: fd != ch.fd ==> Registered(interest, fd) == Registered(old(interest), fd)
      ensures Sound(old(interest)) ==> Sound(interest)
      ensures Sound(old(interest)) && Fits(ch, Registered(old(interest), ch.fd)) ==> refused == old(refused)
    {
      var events, op := NOTHING, CtlAdd;
      if ch.read == Add || ch.write == Add {
        // if anything is added, an ADD or a MOD
        if ch.read == Add {
          events := events.(read := true);
        } else if ch.read == Del {
        } else if ch.oldEvents.read {
          events := events.(read := true);
        }
        if ch.write == Add {
          events := events.(write := true);
        } else if ch.write == Del {
        } else if ch.oldEvents.write {
          events := events.(write := true);
        }
        if ch.oldEvents != NOTHING { op := CtlMod; }
      } else if ch.read == Del || ch.write == Del {
        // if anything is deleted, a MOD or a DEL
        op := CtlDel;
        if ch.read == Del {
          if ch.write == Del {
            events := Interest(true, true);
          } else if ch.oldEvents.write {
            events, op := Interest(false, true), CtlMod;
          } else {
            events := Interest(true, false);
          }
        } else if ch.write == Del {
          if ch.oldEvents.read {
            events, op := Interest(true, false), CtlMod;
          } else {
            events := Interest(false, true);
          }
        }
      }
      if events == NOTHING { return 0; }
      var errno := Ctl(op, ch.fd, events);
      if errno != Ok {
        if op == CtlMod && errno == Enoent {
          errno := Ctl(CtlAdd, ch.fd, events);
          return if errno == Ok then 0 else -1;
        } else if op == CtlAdd && errno == Eexist {
          errno := Ctl(CtlMod, ch.fd, events);
          return if errno == Ok then 0 else -1;
        } else if op == CtlDel && errno == Enoent {
          return 0;
        }
        return -1;
      }
      r := 0;
    }
  }

  /** A kernel registers a descriptor only for something. */
  ghost predicate Sound(interest: map<int, Interest>) {
    forall fd :: fd in interest ==> interest[fd] != NOTHING
  }

  /** A change that was recorded for a descriptor with the given registration: nothing is deleted that is
      not there. */
  ghost predicate Fits(ch: Change, registered: Interest) {
    && ch.oldEvents == registered
    && (ch.read == Del ==> registered.read)
    && (ch.write == Del ==> registered.write)
  }

  function Edited(before: bool, edit: Edit): bool {
    match edit
    case Keep => before
    case Add => true
    case Del => false
  }

  /** The registration that a change asks for. */
  function Net(ch: Change): Interest {
    Interest(Edited(ch.oldEvents.read, ch.read), Edited(ch.oldEvents.write, ch.write))
  }

  // ----- the map and the changelist -----

  function CountRead(events: seq<Event>): (n: nat)
    ensures n <= |events|
  {
    if events == [] then 0 else (if events[0].events.read then 1 else 0) + CountRead(events[1..])
  }

  function CountWrite(events: seq<Event>): (n: nat)
    ensures n <= |events|
  {
    if events == [] then 0 else (if events[0].events.write then 1 else 0) + CountWrite(events[1..])
  }

  lemma {:induction false} CountsAppend(a: seq<Event>, b: seq<Event>)
    ensures CountRead(a + b) == CountRead(a) + CountRead(b)
    ensures CountWrite(a + b) == CountWrite(a) + CountWrite(b)
  {
    if a == [] {
      assert a + b == b;
    } else {
      assert (a + b)[0] == a[0] && (a + b)[1..] == a[1..] + b;
      CountsAppend(a[1..], b);
    }
  }

  /** TAILQ_REMOVE */
  function Without(events: seq<Event>, ev: Event): (r: seq<Event>)
    requires ev in events
    ensures CountRead(r) == CountRead(events) - if ev.events.read then 1 else 0
    ensures CountWrite(r) == CountWrite(events) - if ev.events.write then 1 else 0
    ensures forall e :: e in r ==> e in events
  {
    if events[0] == ev then events[1..] else [events[0]] + Without(events[1..], ev)
  }

  /** No event is listed twice. */
  ghost predicate Distinct(events: seq<Event>) {
    forall i, j :: 0 <= i < j < |events| ==> events[i] != events[j]
  }

  /** One entry for ev is gone, and all other events are there in the same order. */
  ghost predicate TakenOut(before: seq<Event>, ev: Event, after: seq<Event>) {
    exists k :: 0 <= k < |before| && before[k] == ev && after == before[..k] + before[k + 1..]
  }

  lemma {:induction false} WithoutTakesOut(events: seq<Event>, ev: Event)
    requires ev in events
    ensures TakenOut(events, ev, Without(events, ev))
  {
    hide TakenOut;
    if events[0] == ev {
      FirstTakenOut(events);
    } else {
      WithoutTakesOut(events[1..], ev);
      PutInFront(events[0], events[1..], ev, Without(events[1..], ev));
      assert [events[0]] + events[1..] == events;
    }
  }

  lemma FirstTakenOut(events: seq<Event>)
    requires events != []
    ensures TakenOut(events, events[0], events[1..])
  {
    var k := 0;
    assert events[1..] == events[..k] + events[k + 1..];
  }

  lemma PutInFront(first: Event, before: seq<Event>, ev: Event, after: seq<Event>)
    requires TakenOut(before, ev, after)
    ensures TakenOut([first] + before, ev, [first] + after)
  {
    var k :| 0 <= k < |before| && before[k] == ev && after == before[..k] + before[k + 1..];
    var longer, j := [first] + before, k + 1;
    assert longer[j] == ev && longer[..j] == [first] + before[..k] && longer[j + 1..] == before[k + 1..];
    assert [first] + after == longer[..j] + longer[j + 1..];
  }

  /** Taken out of a list without doubles, an event is not listed any more, and nothing is listed twice. */
  lemma TakenOutKeeps(before: seq<Event>, ev: Event, after: seq<Event>)
    requires Distinct(before) && TakenOut(before, ev, after)
    ensures Distinct(after) && forall e :: e in after <==> e in before && e != ev
  {
    var k :| 0 <= k < |before| && before[k] == ev && after == before[..k] + before[k + 1..];
    forall e | e in before && e != ev ensures e in after {
      var i :| 0 <= i < |before| && before[i] == e;
      assert after[if i < k then i else i - 1] == e;
    }
  }

  /** A slot with one event less */
  lemma SlotWithout(fd: int, slot: IoSlot, ev: Event)
    requires CountedSlot(fd, slot) && ev in slot.events
    ensures var after := Without(slot.events, ev);
            var less := slot.(events := after, nread := slot.nread - (if ev.events.read then 1 else 0),
                              nwrite := slot.nwrite - if ev.events.write then 1 else 0);
            && CountedSlot(fd, less) && less.nread >= 0 && less.nwrite >= 0
            && TakenOut(slot.events, ev, after) && (forall e :: e in after <==> e in slot.events && e != ev)
            && Wants(after) == less.Wanted() && Wants(slot.events) == slot.Wanted()
  {
    WithoutTakesOut(slot.events, ev);
    TakenOutKeeps(slot.events, ev, Without(slot.events, ev));
    hide TakenOut, Without;
  }

  /** The counters of every slot count its events. */
  ghost predicate Counted(io: map<int, IoSlot>) {
    forall fd :: fd in io ==> CountedSlot(fd, io[fd])
  }

  /** idxplus1 and the changes point at each other. */
  ghost predicate Indexed(io: map<int, IoSlot>, changes: seq<Change>) {
    && (forall i :: 0 <= i < |changes| ==> changes[i].fd in io && io[changes[i].fd].idxplus1 == i + 1)
    && (forall fd :: fd in io ==> 0 <= io[fd].idxplus1 <= |changes|)
    && (forall fd :: fd in io && io[fd].idxplus1 > 0 ==> changes[io[fd].idxplus1 - 1].fd == fd)
  }

  /** What is registered and what is still to be changed add up to what the events want. */
  ghost predicate Tracked(io: map<int, IoSlot>, changes: seq<Change>, interest: map<int, Interest>) {
    && Sound(interest)
    && (forall fd :: fd in interest ==> fd in io)
    && (forall fd :: fd in io ==> Agrees(io[fd], changes, Registered(interest, fd)))
  }

  /** The registration of a descriptor, edited by its change if it has one, is what its events want. */
  ghost predicate Agrees(slot: IoSlot, changes: seq<Change>, registered: Interest) {
    if slot.idxplus1 == 0 then registered == slot.Wanted()
    else 0 < slot.idxplus1 <= |changes| &&
         var ch := changes[slot.idxplus1 - 1]; Fits(ch, registered) && Net(ch) == slot.Wanted()
  }

  ghost predicate CountedSlot(fd: int, slot: IoSlot) {
    && 0 <= fd
    && slot.nread == CountRead(slot.events) <= 0xffff
    && slot.nwrite == CountWrite(slot.events) <= 0xffff
    && (forall e :: e in slot.events ==> e.fd == fd)
    && Distinct(slot.events)
  }

  /** The entry of a descriptor in the changelist, or the one it would get. */
  function EntryOf(io: map<int, IoSlot>, changes: seq<Change>, fd: int, oldEvents: Interest): Change
    requires fd in io && 0 <= io[fd].idxplus1 <= |changes|
  {
    if io[fd].idxplus1 == 0 then Change(fd, oldEvents, Keep, Keep) else changes[io[fd].idxplus1 - 1]
  }

  function IndexFor(io: map<int, IoSlot>, changes: seq<Change>, fd: int): (i: nat)
    requires fd in io && 0 <= io[fd].idxplus1 <= |changes|
    ensures i <= |changes|
  {
    if io[fd].idxplus1 == 0 then |changes| else io[fd].idxplus1 - 1
  }

  /** The changelist with the entry of fd set to ch. */
  function Recorded(io: map<int, IoSlot>, changes: seq<Change>, fd: int, ch: Change): seq<Change>
    requires fd in io && 0 <= io[fd].idxplus1 <= |changes|
  {
    var i := IndexFor(io, changes, fd);
    if i == |changes| then changes + [ch] else changes[i := ch]
  }

  lemma RecordIndexed(io: map<int, IoSlot>, changes: seq<Change>, fd: int, slot: IoSlot, ch: Change)
    requires Indexed(io, changes) && fd in io && ch.fd == fd && slot.idxplus1 == IndexFor(io, changes, fd) + 1
    ensures var changes2, i := Recorded(io, changes, fd, ch), IndexFor(io, changes, fd);
            && Indexed(io[fd := slot], changes2)
            && i < |changes2| && changes2[i] == ch
            && (forall j :: 0 <= j < |changes| && j != i ==> j < |changes2| && changes2[j] == changes[j])
            && (forall f :: f in io && f != fd ==> io[f].idxplus1 - 1 != i)
  {
    hide Indexed;
    IndexedAt(io, changes, fd);
    if io[fd].idxplus1 == 0 {
      AppendIndexed(io, changes, fd, slot, ch);
    } else {
      UpdateIndexed(io, changes, fd, slot, ch);
    }
  }

  lemma IndexedAt(io: map<int, IoSlot>, changes: seq<Change>, fd: int)
    requires Indexed(io, changes) && fd in io
    ensures 0 <= io[fd].idxplus1 <= |changes|
  {
  }

  lemma AppendIndexed(io: map<int, IoSlot>, changes: seq<Change>, fd: int, slot: IoSlot, ch: Change)
    requires Indexed(io, changes) && fd in io && ch.fd == fd && io[fd].idxplus1 == 0 && slot.idxplus1 == |changes| + 1
    ensures Indexed(io[fd := slot], changes + [ch])
    ensures forall f :: f in io ==> io[f].idxplus1 - 1 != |changes|
  {
  }

  lemma UpdateIndexed(io: map<int, IoSlot>, changes: seq<Change>, fd: int, slot: IoSlot, ch: Change)
    requires Indexed(io, changes) && fd in io && ch.fd == fd && slot.idxplus1 == io[fd].idxplus1 > 0
    ensures Indexed(io[fd := slot], changes[io[fd].idxplus1 - 1 := ch])
    ensures forall f :: f in io && f != fd ==> io[f].idxplus1 != io[fd].idxplus1
  {
  }

  /** Recording a change of one descriptor keeps the map, the changelist and the kernel in step. */
  lemma RecordKeeps(io: map<int, IoSlot>, changes: seq<Change>, interest: map<int, Interest>, fd: int,
                    slot: IoSlot, ch: Change)
    requires Counted(io) && Indexed(io, changes) && Tracked(io, changes, interest) && fd in io
    requires ch.fd == fd && Fits(ch, Registered(interest, fd)) && Net(ch) == slot.Wanted()
    requires CountedSlot(fd, slot) && slot.idxplus1 == IndexFor(io, changes, fd) + 1
    ensures var io2, changes2 := io[fd := slot], Recorded(io, changes, fd, ch);
            Counted(io2) && Indexed(io2, changes2) && Tracked(io2, changes2, interest)
  {
    hide CountedSlot, Fits, Net, Registered, IoSlot.Wanted, Recorded, IndexFor, Indexed;
    var io2, changes2, i := io[fd := slot], Recorded(io, changes, fd, ch), IndexFor(io, changes, fd);
    RecordIndexed(io, changes, fd, slot, ch);
    forall f | f in io && f != fd
      ensures io[f].idxplus1 - 1 != i && Agrees(io2[f], changes2, Registered(interest, f))
    {
      assert Agrees(io[f], changes, Registered(interest, f));
    }
  }

  lemma RecountIndexed(io: map<int, IoSlot>, changes: seq<Change>, fd: int, slot: IoSlot)
    requires Indexed(io, changes) && slot.idxplus1 == if fd in io then io[fd].idxplus1 else 0
    ensures Indexed(io[fd := slot], changes)
  {
  }

  /** A slot whose wants stay the same. */
  lemma RecountKeeps(io: map<int, IoSlot>, changes: seq<Change>, interest: map<int, Interest>, fd: int, slot: IoSlot)
    requires Counted(io) && Indexed(io, changes) && Tracked(io, changes, interest)
    requires CountedSlot(fd, slot)
    requires if fd in io then slot.Wanted() == io[fd].Wanted() && slot.idxplus1 == io[fd].idxplus1
             else slot.Wanted() == NOTHING && slot.idxplus1 == 0
    ensures var io2 := io[fd := slot];
            Counted(io2) && Indexed(io2, changes) && Tracked(io2, changes, interest)
  {
    hide CountedSlot, Fits, Net, IoSlot.Wanted, Indexed;
    RecountIndexed(io, changes, fd, slot);
    forall f | f in io[fd := slot] ensures Agrees(io[fd := slot][f], changes, Registered(interest, f)) {
      if f in io { assert Agrees(io[f], changes, Registered(interest, f)); }
    }
  }

  /** A change that was made at once. */
  lemma ApplyKeeps(io: map<int, IoSlot>, interest: map<int, Interest>, interest2: map<int, Interest>, fd: int, slot: IoSlot)
    requires Counted(io) && Indexed(io, []) && Tracked(io, [], interest) && fd in io
    requires CountedSlot(fd, slot) && slot.idxplus1 == 0
    requires Sound(interest2) && Registered(interest2, fd) == slot.Wanted()
    requires forall f :: f != fd ==> Registered(interest2, f) == Registered(interest, f)
    ensures var io2 := io[fd := slot];
            Counted(io2) && Indexed(io2, []) && Tracked(io2, [], interest2)
  {
    hide CountRead, CountWrite, Fits, Net;
    forall f | f in interest2 ensures f in io {
      assert Registered(interest2, f) != NOTHING;
    }
  }

  /** The events of a descriptor. */
  function EventsOf(io: map<int, IoSlot>, fd: int): seq<Event> {
    if fd in io then io[fd].events else []
  }

  class EventBase {
    /** epollops_changelist or epollops */
    const changelist: bool
    const epoll: Epoll
    /** base->io */
    var io: map<int, IoSlot>
    /** the changelist; n_changes is its length */
    var changes: seq<Change>
    var changesSize: int

    ghost predicate Valid()
      reads this, epoll
    {
      ValidWith(io)
    }

    ghost predicate ValidWith(io2: map<int, IoSlot>)
      reads this, epoll
    {
      && Counted(io2) && Indexed(io2, changes) && Tracked(io2, changes, epoll.interest)
      && |changes| <= changesSize && (!changelist ==> changes == [])
    }

    constructor (changelist: bool)
      ensures Valid() && fresh(epoll) && io == map[] && this.changelist == changelist
    {
      this.changelist := changelist;
      epoll := new Epoll();
      io, changes, changesSize := map[], [], 0;
    }

    /** event_changelist_get_or_construct: the index of the change of fd. */
    method GetOrConstruct(fd: int, oldEvents: Interest) returns (i: nat)
      requires fd in io && Indexed(io, changes) && |changes| <= changesSize
      modifies this`io, this`changes, this`changesSize
      ensures i == IndexFor(old(io), old(changes), fd) < |changes| <= changesSize
      ensures io == old(io)[fd := old(io)[fd].(idxplus1 := i + 1)]
      ensures changes == Recorded(old(io), old(changes), fd, EntryOf(old(io), old(changes), fd, oldEvents))
      ensures changes[i] == EntryOf(old(io), old(changes), fd, oldEvents) && changes[i].fd == fd
    {
      if io[fd].idxplus1 == 0 {
        if |changes| == changesSize {
          // event_changelist_grow
          changesSize := if changesSize < 64 then 64 else changesSize * 2;
        }
        i := |changes|;
        changes := changes + [Change(fd, oldEvents, Keep, Keep)];
        io := io[fd := io[fd].(idxplus1 := i + 1)];
      } else {
        i := io[fd].idxplus1 - 1;
        assert changes[i].fd == fd;
      }
    }

    /** event_changelist_add */
    method ChangelistAdd(fd: int, oldEvents: Interest, events: Interest) returns (r: int)
      requires fd in io && Indexed(io, changes) && |changes| <= changesSize
      modifies this`io, this`changes, this`changesSize
      ensures r == 0 && |changes| <= changesSize
      ensures io == old(io)[fd := old(io)[fd].(idxplus1 := IndexFor(old(io), old(changes), fd) + 1)]
      ensures changes == Recorded(old(io), old(changes), fd,
                                  AddEdit(EntryOf(old(io), old(changes), fd, oldEvents), events))
    {
      var i := GetOrConstruct(fd, oldEvents);
      if events.read { changes := changes[i := changes[i].(read := Add)]; }
      if events.write { changes := changes[i := changes[i].(write := Add)]; }
      r := 0;
    }

    /** event_changelist_del */
    method ChangelistDel(fd: int, oldEvents: Interest, events: Interest) returns (r: int)
      requires fd in io && Indexed(io, changes) && |changes| <= changesSize
      modifies this`io, this`changes, this`changesSize
      ensures r == 0 && |changes| <= changesSize
      ensures io == old(io)[fd := old(io)[fd].(idxplus1 := IndexFor(old(io), old(changes), fd) + 1)]
      ensures changes == Recorded(old(io), old(changes), fd,
                                  DelEdit(EntryOf(old(io), old(changes), fd, oldEvents), events))
    {
      var i := GetOrConstruct(fd, oldEvents);
      if events.read {
        if !changes[i].oldEvents.read && changes[i].read == Add {
          changes := changes[i := changes[i].(read := Keep)];
        } else {
          changes := changes[i := changes[i].(read := Del)];
        }
      }
      if events.write {
        if !changes[i].oldEvents.write && changes[i].write == Add {
          changes := changes[i := changes[i].(write := Keep)];
        } else {
          changes := changes[i := changes[i].(write := Del)];
        }
      }
      r := 0;
    }

    /** epoll_nochangelist_add */
    method NoChangelistAdd(fd: int, oldEvents: Interest, events: Interest) returns (r: int)
      requires Sound(epoll.interest) && Registered(epoll.interest, fd) == oldEvents && events != NOTHING
      modifies epoll
      ensures r == 0 && epoll.refused == old(epoll.refused) && Sound(epoll.interest)
      ensures Registered(epoll.interest, fd) == Union(oldEvents, events)
      ensures forall f :: f != fd ==> Registered(epoll.interest, f) == Registered(old(epoll.interest), f)
    {
      var ch := Change(fd, oldEvents, Keep, Keep);
      if events.write { ch := ch.(write := Add); }
      if events.read { ch := ch.(read := Add); }
      r := epoll.ApplyOneChange(ch);
    }

    /** epoll_nochangelist_del */
    method NoChangelistDel(fd: int, oldEvents: Interest, events: Interest) returns (r: int)
      requires Sound(epoll.interest) && Registered(epoll.interest, fd) == oldEvents && events != NOTHING
      requires (events.read ==> oldEvents.read) && (events.write ==> oldEvents.write)
      modifies epoll
      ensures r == 0 && epoll.refused == old(epoll.refused) && Sound(epoll.interest)
      ensures Registered(epoll.interest, fd) == Minus(oldEvents, events)
      ensures forall f :: f != fd ==> Registered(epoll.interest, f) == Registered(old(epoll.interest), f)
    {
      var ch := Change(fd, oldEvents, Keep, Keep);
      if events.write { ch := ch.(write := Del); }
      if events.read { ch := ch.(read := Del); }
      r := epoll.ApplyOneChange(ch);
    }

    /** evsel->add: queue the change, or make it at once.  slot is what the slot of fd is about to become. */
    method BackendAdd(fd: int, oldEvents: Interest, events: Interest, ghost slot: IoSlot) returns (r: int)
      requires Valid() && fd in io && events != NOTHING && io[fd].Wanted() == oldEvents
      requires CountedSlot(fd, slot) && slot.Wanted() == Union(oldEvents, events)
      modifies this`io, this`changes, this`changesSize, epoll
      ensures r == 0 && fd in io && io == old(io)[fd := old(io)[fd].(idxplus1 := io[fd].idxplus1)]
      ensures ValidWith(io[fd := slot.(idxplus1 := io[fd].idxplus1)])
      ensures epoll.refused == old(epoll.refused) && (changelist ==> epoll.interest == old(epoll.interest))
    {
      hide Counted, CountedSlot, Fits, Net, Recorded, EntryOf, AddEdit, Agrees, Registered, IoSlot.Wanted;
      EntryFits(io, changes, epoll.interest, fd);
      if changelist {
        ghost var entry, i := EntryOf(io, changes, fd, oldEvents), IndexFor(io, changes, fd);
        Renumber(fd, slot, i + 1);
        AddIsCoalesced(entry, Registered(epoll.interest, fd), events);
        RecordKeeps(io, changes, epoll.interest, fd, slot.(idxplus1 := i + 1), AddEdit(entry, events));
        r := ChangelistAdd(fd, oldEvents, events);
        assert io[fd := slot.(idxplus1 := i + 1)] == old(io)[fd := slot.(idxplus1 := i + 1)];
      } else {
        NoEntry(io, epoll.interest, fd);
        Renumber(fd, slot, 0);
        r := NoChangelistAdd(fd, oldEvents, events);
        ApplyKeeps(io, old(epoll.interest), epoll.interest, fd, slot.(idxplus1 := 0));
      }
    }

    /** evsel->del */
    method BackendDel(fd: int, oldEvents: Interest, events: Interest, ghost slot: IoSlot) returns (r: int)
      requires Valid() && fd in io && events != NOTHING && io[fd].Wanted() == oldEvents
      requires (events.read ==> oldEvents.read) && (events.write ==> oldEvents.write)
      requires CountedSlot(fd, slot) && slot.Wanted() == Minus(oldEvents, events)
      modifies this`io, this`changes, this`changesSize, epoll
      ensures r == 0 && fd in io && io == old(io)[fd := old(io)[fd].(idxplus1 := io[fd].idxplus1)]
      ensures ValidWith(io[fd := slot.(idxplus1 := io[fd].idxplus1)])
      ensures epoll.refused == old(epoll.refused) && (changelist ==> epoll.interest == old(epoll.interest))
    {
      hide Counted, CountedSlot, Fits, Net, Recorded, EntryOf, DelEdit, Agrees, Registered, IoSlot.Wanted;
      EntryFits(io, changes, epoll.interest, fd);
      if changelist {
        ghost var entry, i := EntryOf(io, changes, fd, oldEvents), IndexFor(io, changes, fd);
        Renumber(fd, slot, i + 1);
        DelIsCoalesced(entry, Registered(epoll.interest, fd), events);
        RecordKeeps(io, changes, epoll.interest, fd, slot.(idxplus1 := i + 1), DelEdit(entry, events));
        r := ChangelistDel(fd, oldEvents, events);
        assert io[fd := slot.(idxplus1 := i + 1)] == old(io)[fd := slot.(idxplus1 := i + 1)];
      } else {
        NoEntry(io, epoll.interest, fd);
        Renumber(fd, slot, 0);
        r := NoChangelistDel(fd, oldEvents, events);
        ApplyKeeps(io, old(epoll.interest), epoll.interest, fd, slot.(idxplus1 := 0));
      }
    }

    /** GET_IO_SLOT_AND_CTOR: make the slot of a descriptor that has none. */
    method MakeSlot(fd: int)
      requires Valid() && 0 <= fd
      modifies this`io
      ensures Valid() && fd in io && forall f :: EventsOf(io, f) == EventsOf(old(io), f)
    {
      if fd !in io {
        RecountKeeps(io, changes, epoll.interest, fd, EMPTY_SLOT);
        io := io[fd := EMPTY_SLOT];
      }
    }

    /** evmap_io_add: -1 if there are too many events, 1 if the backend was told, 0 if not. */
    method IoAdd(fd: int, ev: Event) returns (r: int)
      requires Valid() && ev.fd == fd && ev !in EventsOf(io, fd)
      modifies this`io, this`changes, this`changesSize, epoll
      ensures Valid() && epoll.refused == old(epoll.refused)
      ensures changelist ==> epoll.interest == old(epoll.interest)
      ensures forall f :: EventsOf(io, f) == if f == fd && CanAdd(EventsOf(old(io), fd), ev)
                                             then EventsOf(old(io), f) + [ev] else EventsOf(old(io), f)
      ensures r == if fd < 0 then 0 else if !CanAdd(EventsOf(old(io), fd), ev) then -1
                   else if Wants(EventsOf(old(io), fd) + [ev]) != Wants(EventsOf(old(io), fd)) then 1 else 0
    {
      if fd < 0 { return 0; }
      MakeSlot(fd);
      r := AddToSlot(fd, ev);
    }

    /** evmap_io_add, for a descriptor that has a slot. */
    method AddToSlot(fd: int, ev: Event) returns (r: int)
      requires Valid() && ev.fd == fd && fd in io && ev !in io[fd].events
      modifies this`io, this`changes, this`changesSize, epoll
      ensures Valid() && epoll.refused == old(epoll.refused)
      ensures changelist ==> epoll.interest == old(epoll.interest)
      ensures forall f :: EventsOf(io, f) == if f == fd && CanAdd(EventsOf(old(io), fd), ev)
                                             then EventsOf(old(io), f) + [ev] else EventsOf(old(io), f)
      ensures r == if !CanAdd(EventsOf(old(io), fd), ev) then -1
                   else if Wants(EventsOf(old(io), fd) + [ev]) != Wants(EventsOf(old(io), fd)) then 1 else 0
    {
      hide Indexed, Tracked, Agrees;
      ghost var before := io[fd].events;
      CountsAppend(before, [ev]);
      CountsOne(ev);
      assert CountedSlot(fd, io[fd]);
      var nread, nwrite, res := io[fd].nread, io[fd].nwrite, NOTHING;
      var oldEvents := Interest(nread != 0, nwrite != 0);
      if ev.events.read {
        nread := nread + 1;
        if nread == 1 { res := res.(read := true); }
      }
      if ev.events.write {
        nwrite := nwrite + 1;
        if nwrite == 1 { res := res.(write := true); }
      }
      if nread > 0xffff || nwrite > 0xffff { return -1; }
      r := Grow(fd, oldEvents, res, IoSlot(io[fd].events + [ev], nread, nwrite, io[fd].idxplus1));
    }

    /** The end of evmap_io_add: tell the backend if something new is wanted, and set the slot. */
    method Grow(fd: int, oldEvents: Interest, res: Interest, slot: IoSlot) returns (r: int)
      requires Valid() && fd in io && io[fd].Wanted() == oldEvents && slot.idxplus1 == io[fd].idxplus1
      requires CountedSlot(fd, slot) && slot.Wanted() == Union(oldEvents, res)
      modifies this`io, this`changes, this`changesSize, epoll
      ensures Valid() && epoll.refused == old(epoll.refused)
      ensures changelist ==> epoll.interest == old(epoll.interest)
      ensures fd in io && io == old(io)[fd := slot.(idxplus1 := io[fd].idxplus1)]
      ensures r == if res != NOTHING then 1 else 0
    {
      hide Indexed, Tracked, Agrees, Counted, CountedSlot;
      r := 0;
      if res != NOTHING {
        var e := BackendAdd(fd, oldEvents, res, slot);
        if e == -1 { return -1; }
        r := 1;
      } else {
        RecountKeeps(io, changes, epoll.interest, fd, slot);
      }
      io := io[fd := slot.(idxplus1 := io[fd].idxplus1)];
    }

    /** evmap_io_del, for an event of the descriptor. */
    method IoDel(fd: int, ev: Event) returns (r: int)
      requires Valid() && ev.fd == fd && (fd >= 0 ==> ev in EventsOf(io, fd))
      modifies this`io, this`changes, this`changesSize, epoll
      ensures Valid() && epoll.refused == old(epoll.refused)
      ensures changelist ==> epoll.interest == old(epoll.interest)
      ensures forall f :: f != fd || fd < 0 ==> EventsOf(io, f) == EventsOf(old(io), f)
      ensures fd >= 0 ==> TakenOut(EventsOf(old(io), fd), ev, EventsOf(io, fd))
      ensures fd >= 0 ==> EventsOf(io, fd) == Without(EventsOf(old(io), fd), ev)
      ensures forall e :: e in EventsOf(io, fd) <==> e in EventsOf(old(io), fd) && e != ev
      ensures r == if Wants(EventsOf(io, fd)) != Wants(EventsOf(old(io), fd)) then 1 else 0
    {
      if fd < 0 {
        assert fd !in io;
        return 0;
      }
      assert fd in io;
      hide EventBase.ValidWith, Wants, Without, TakenOut;
      r := DelFromSlot(fd, ev);
    }

    /** evmap_io_del, for a descriptor that has a slot. */
    method DelFromSlot(fd: int, ev: Event) returns (r: int)
      requires Valid() && ev.fd == fd && fd in io && ev in io[fd].events
      modifies this`io, this`changes, this`changesSize, epoll
      ensures Valid() && epoll.refused == old(epoll.refused)
      ensures changelist ==> epoll.interest == old(epoll.interest)
      ensures fd in io && io == old(io)[fd := io[fd]]
      ensures TakenOut(old(io)[fd].events, ev, io[fd].events) && io[fd].events == Without(old(io)[fd].events, ev)
      ensures forall e :: e in io[fd].events <==> e in old(io)[fd].events && e != ev
      ensures r == if Wants(io[fd].events) != Wants(old(io)[fd].events) then 1 else 0
    {
      hide Indexed, Tracked, Agrees, TakenOut, CountedSlot, Wants, Without, Distinct;
      assert CountedSlot(fd, io[fd]);
      hide EventBase.ValidWith, Counted;
      SlotWithout(fd, io[fd], ev);
      var nread, nwrite, res := io[fd].nread, io[fd].nwrite, NOTHING;
      var oldEvents := Interest(nread != 0, nwrite != 0);
      if ev.events.read {
        nread := nread - 1;
        if nread == 0 { res := res.(read := true); }
        assert nread >= 0;
      }
      if ev.events.write {
        nwrite := nwrite - 1;
        if nwrite == 0 { res := res.(write := true); }
        assert nwrite >= 0;
      }
      r := Shrink(fd, oldEvents, res, IoSlot(Without(io[fd].events, ev), nread, nwrite, io[fd].idxplus1));
    }

    /** The end of evmap_io_del. */
    method Shrink(fd: int, oldEvents: Interest, res: Interest, slot: IoSlot) returns (r: int)
      requires Valid() && fd in io && io[fd].Wanted() == oldEvents && slot.idxplus1 == io[fd].idxplus1
      requires (res.read ==> oldEvents.read) && (res.write ==> oldEvents.write)
      requires CountedSlot(fd, slot) && slot.Wanted() == Minus(oldEvents, res)
      modifies this`io, this`changes, this`changesSize, epoll
      ensures Valid() && epoll.refused == old(epoll.refused)
      ensures changelist ==> epoll.interest == old(epoll.interest)
      ensures fd in io && io == old(io)[fd := slot.(idxplus1 := io[fd].idxplus1)]
      ensures r == if res != NOTHING then 1 else 0
    {
      hide Indexed, Tracked, Agrees, Counted, CountedSlot;
      r := 0;
      if res != NOTHING {
        var e := BackendDel(fd, oldEvents, res, slot);
        if e == -1 { return -1; }
        r := 1;
      } else {
        RecountKeeps(io, changes, epoll.interest, fd, slot);
      }
      io := io[fd := slot.(idxplus1 := io[fd].idxplus1)];
    }

    /** The beginning of epoll_dispatch: make all recorded changes, and forget them. */
    method Dispatch()
      requires Valid()
      modifies this`io, this`changes, epoll
      ensures Valid() && epoll.refused == old(epoll.refused) && changes == []
      ensures forall f :: EventsOf(io, f) == EventsOf(old(io), f)
      ensures forall f :: Registered(epoll.interest, f) == Wants(EventsOf(io, f))
    {
      var r := ApplyChanges();
      RemoveAll();
      UpToDate(io, epoll.interest);
    }

    /** epoll_apply_changes */
    method ApplyChanges() returns (r: int)
      requires Valid()
      modifies epoll
      ensures r == 0 && epoll.refused == old(epoll.refused)
      ensures Applied(io, changes, |changes|, old(epoll.interest), epoll.interest)
    {
      hide Fits, Net, Registered;
      NoneApplied(io, changes, epoll.interest);
      var i := 0;
      r := 0;
      while i < |changes|
        invariant 0 <= i <= |changes| && r == 0 && epoll.refused == old(epoll.refused)
        invariant Applied(io, changes, i, old(epoll.interest), epoll.interest)
      {
        ghost var was := epoll.interest;
        var ch := changes[i];
        assert Agrees(io[ch.fd], changes, Registered(old(epoll.interest), ch.fd));
        var e := epoll.ApplyOneChange(ch);
        if e < 0 { r := -1; }
        OneApplied(io, changes, i, old(epoll.interest), was, epoll.interest);
        i := i + 1;
      }
    }

    /** event_changelist_remove_all */
    method RemoveAll()
      requires Counted(io) && Indexed(io, changes) && |changes| <= changesSize
      requires Sound(epoll.interest) && forall f :: f in epoll.interest ==> f in io
      requires forall f :: f in io ==> Registered(epoll.interest, f) == io[f].Wanted()
      modifies this`io, this`changes
      ensures Valid() && changes == []
      ensures forall f :: EventsOf(io, f) == EventsOf(old(io), f)
    {
      var i := 0;
      while i < |changes|
        invariant 0 <= i <= |changes| && changes == old(changes)
        invariant forall f :: f in io <==> f in old(io)
        invariant forall f :: f in io ==> io[f] == old(io)[f].(idxplus1 := if old(io)[f].idxplus1 <= i then 0 else old(io)[f].idxplus1)
      {
        var fd := changes[i].fd;
        assert io[fd].idxplus1 == i + 1;
        io := io[fd := io[fd].(idxplus1 := 0)];
        i := i + 1;
      }
      changes := [];
    }
  }

  /** The first n changes have been made. */
  ghost predicate Applied(io: map<int, IoSlot>, changes: seq<Change>, n: int, before: map<int, Interest>, now: map<int, Interest>) {
    && Sound(now)
    && (forall f :: f in io ==>
          Registered(now, f) == if 0 < io[f].idxplus1 <= n then io[f].Wanted() else Registered(before, f))
    && (forall f :: f !in io ==> Registered(now, f) == Registered(before, f))
  }

  /** What a list of events wants from the backend. */
  function Wants(events: seq<Event>): Interest {
    Interest(CountRead(events) > 0, CountWrite(events) > 0)
  }

  /** The counters are 16 bits wide. */
  predicate CanAdd(events: seq<Event>, ev: Event) {
    ev.fd >= 0 && CountRead(events + [ev]) <= 0xffff && CountWrite(events + [ev]) <= 0xffff
  }

  lemma CountsOne(ev: Event)
    ensures CountRead([ev]) == if ev.events.read then 1 else 0
    ensures CountWrite([ev]) == if ev.events.write then 1 else 0
  {
    assert [ev][1..] == [];
  }

  function Union(a: Interest, b: Interest): Interest {
    Interest(a.read || b.read, a.write || b.write)
  }

  function Minus(a: Interest, b: Interest): Interest {
    Interest(a.read && !b.read, a.write && !b.write)
  }

  lemma NoneApplied(io: map<int, IoSlot>, changes: seq<Change>, interest: map<int, Interest>)
    requires Sound(interest)
    ensures Applied(io, changes, 0, interest, interest)
  {
  }

  lemma OneApplied(io: map<int, IoSlot>, changes: seq<Change>, i: nat, before: map<int, Interest>,
                   was: map<int, Interest>, now: map<int, Interest>)
    requires Indexed(io, changes) && Tracked(io, changes, before) && i < |changes|
    requires Applied(io, changes, i, before, was) && Sound(now)
    requires var ch := changes[i];
             && (forall f :: f != ch.fd ==> Registered(now, f) == Registered(was, f))
             && (if ch.read == Keep && ch.write == Keep then now == was else Registered(now, ch.fd) == Net(ch))
    ensures Applied(io, changes, i + 1, before, now)
  {
    var ch := changes[i];
    assert Agrees(io[ch.fd], changes, Registered(before, ch.fd));
    hide Registered;
    forall f | f in io
      ensures Registered(now, f) == if 0 < io[f].idxplus1 <= i + 1 then io[f].Wanted() else Registered(before, f)
    {
      if f != ch.fd && io[f].idxplus1 > 0 { assert changes[io[f].idxplus1 - 1].fd == f; }
    }
  }

  lemma Renumber(fd: int, slot: IoSlot, idxplus1: int)
    requires CountedSlot(fd, slot)
    ensures CountedSlot(fd, slot.(idxplus1 := idxplus1)) && slot.(idxplus1 := idxplus1).Wanted() == slot.Wanted()
  {
  }

  /** The entry of a descriptor has the net effect that its events want. */
  lemma EntryFits(io: map<int, IoSlot>, changes: seq<Change>, interest: map<int, Interest>, fd: int)
    requires Indexed(io, changes) && Tracked(io, changes, interest) && fd in io
    ensures var e := EntryOf(io, changes, fd, io[fd].Wanted());
            e.fd == fd && Fits(e, Registered(interest, fd)) && Net(e) == io[fd].Wanted()
  {
    assert Agrees(io[fd], changes, Registered(interest, fd));
  }

  /** Without a changelist the kernel is up to date. */
  lemma NoEntry(io: map<int, IoSlot>, interest: map<int, Interest>, fd: int)
    requires Indexed(io, []) && Tracked(io, [], interest) && fd in io
    ensures io[fd].idxplus1 == 0 && Registered(interest, fd) == io[fd].Wanted()
  {
    assert Agrees(io[fd], [], Registered(interest, fd));
  }

  /** An add replaces any previous delete. */
  function AddEdit(ch: Change, events: Interest): Change {
    ch.(read := if events.read then Add else ch.read, write := if events.write then Add else ch.write)
  }

  /** A delete takes back an add of what was not there, and is recorded otherwise. */
  function DelEdit(ch: Change, events: Interest): Change {
    ch.(read := if !events.read then ch.read else if !ch.oldEvents.read && ch.read == Add then Keep else Del,
        write := if !events.write then ch.write else if !ch.oldEvents.write && ch.write == Add then Keep else Del)
  }

  /** Coalescing keeps the net effect: the changelist entry after an add of what is not wanted. */
  lemma AddIsCoalesced(ch: Change, registered: Interest, events: Interest)
    requires Fits(ch, registered)
    ensures var c := AddEdit(ch, events);
            c.fd == ch.fd && Fits(c, registered) &&
            Net(c) == Union(Net(ch), events)
  {
  }

  /** The same after a delete of what is wanted. */
  lemma DelIsCoalesced(ch: Change, registered: Interest, events: Interest)
    requires Fits(ch, registered)
    requires (events.read ==> Net(ch).read) && (events.write ==> Net(ch).write)
    ensures var c := DelEdit(ch, events);
            c.fd == ch.fd && Fits(c, registered) &&
            Net(c) == Minus(Net(ch), events)
  {
  }

  /** Without pending changes, the kernel reports for every descriptor exactly what its events want. */
  lemma UpToDate(io: map<int, IoSlot>, interest: map<int, Interest>)
    requires Counted(io) && Indexed(io, []) && Tracked(io, [], interest)
    ensures forall f :: Registered(interest, f) == Wants(EventsOf(io, f))
  {
    forall f ensures Registered(interest, f) == Wants(EventsOf(io, f)) {
      if f in io {
        assert CountedSlot(f, io[f]) && Agrees(io[f], [], Registered(interest, f));
      } else {
        assert f !in interest;
      }
    }
  }

  /** What event_add, event_del and the event loop ask for. */
  datatype Request = AddEvent(ev: Event) | DelEvent(ev: Event) | DispatchNow

  /** Whether the last request for ev that was accepted was an add; without one, whether it was listed at first. */
  ghost predicate LastWasAdd(requests: seq<Request>, accepted: seq<bool>, ev: Event, first: bool)
    requires |accepted| == |requests|
  {
    if requests == [] then first
    else
      var n := |requests| - 1;
      Next(requests[n], accepted[n], ev, LastWasAdd(requests[..n], accepted[..n], ev, first))
  }

  /** Whether ev is listed behind a request, if it was so before. */
  ghost predicate Next(r: Request, accepted: bool, ev: Event, before: bool) {
    if accepted && r == AddEvent(ev) then true else if accepted && r == DelEvent(ev) then false else before
  }

  /** The accepted adds for a descriptor, without its accepted deletes, of events that are watched for reading. */
  ghost function Readers(requests: seq<Request>, accepted: seq<bool>, fd: int, first: int): int
    requires |accepted| == |requests|
  {
    if requests == [] then first
    else
      var n := |requests| - 1;
      Readers(requests[..n], accepted[..n], fd, first) + ReadDelta(requests[n], accepted[n], fd)
  }

  /** The same for writing. */
  ghost function Writers(requests: seq<Request>, accepted: seq<bool>, fd: int, first: int): int
    requires |accepted| == |requests|
  {
    if requests == [] then first
    else
      var n := |requests| - 1;
      Writers(requests[..n], accepted[..n], fd, first) + WriteDelta(requests[n], accepted[n], fd)
  }

  /** Whether event_add or event_del passes the request on, and the map takes it. */
  predicate Fitting(io: map<int, IoSlot>, r: Request) {
    match r
    case AddEvent(ev) => ev !in EventsOf(io, ev.fd) && CanAdd(EventsOf(io, ev.fd), ev)
    case DelEvent(ev) => ev in EventsOf(io, ev.fd)
    case DispatchNow => true
  }

  /** The events of a descriptor behind a request. */
  function NextList(events: seq<Event>, r: Request, accepted: bool, fd: int): seq<Event>
    requires accepted && r.DelEvent? && r.ev.fd == fd ==> r.ev in events
  {
    if !accepted || r.DispatchNow? || r.ev.fd != fd then events
    else if r.AddEvent? then events + [r.ev] else Without(events, r.ev)
  }

  /** Which request is accepted: an add of an event that is not there, on a descriptor that has less than 2^16 of
      its kind, and a delete of an event that is there. */
  ghost predicate Acceptable(requests: seq<Request>, accepted: seq<bool>, first: map<int, IoSlot>, r: Request)
    requires |accepted| == |requests|
  {
    match r
    case AddEvent(ev) =>
      && ev.fd >= 0 && !LastWasAdd(requests, accepted, ev, ev in EventsOf(first, ev.fd))
      && (ev.events.read ==> Readers(requests, accepted, ev.fd, CountRead(EventsOf(first, ev.fd))) < 0xffff)
      && (ev.events.write ==> Writers(requests, accepted, ev.fd, CountWrite(EventsOf(first, ev.fd))) < 0xffff)
    case DelEvent(ev) => LastWasAdd(requests, accepted, ev, ev in EventsOf(first, ev.fd))
    case DispatchNow => true
  }

  /** How a request that was accepted, or not, changes the number of readers of a descriptor. */
  ghost function ReadDelta(r: Request, accepted: bool, fd: int): int {
    if !accepted || r.DispatchNow? || r.ev.fd != fd || !r.ev.events.read then 0 else if r.AddEvent? then 1 else -1
  }

  ghost function WriteDelta(r: Request, accepted: bool, fd: int): int {
    if !accepted || r.DispatchNow? || r.ev.fd != fd || !r.ev.events.write then 0 else if r.AddEvent? then 1 else -1
  }

  /** The counts of readers and writers follow the requests that were accepted. */
  ghost predicate Tallied(requests: seq<Request>, accepted: seq<bool>, first: map<int, IoSlot>, io: map<int, IoSlot>)
    requires |accepted| == |requests|
  {
    && (forall f :: CountRead(EventsOf(io, f)) == Readers(requests, accepted, f, CountRead(EventsOf(first, f))))
    && (forall f :: CountWrite(EventsOf(io, f)) == Writers(requests, accepted, f, CountWrite(EventsOf(first, f))))
  }

  /** A list wants to hear of reading exactly if one of its events does, and the same for writing. */
  lemma {:induction false} WantsExactly(events: seq<Event>)
    ensures Wants(events).read <==> exists e :: e in events && e.events.read
    ensures Wants(events).write <==> exists e :: e in events && e.events.write
  {
    if events != [] {
      WantsExactly(events[1..]);
      assert forall e :: e in events <==> e == events[0] || e in events[1..];
    }
  }

  lemma CountsFit(io: map<int, IoSlot>, fd: int)
    requires Counted(io)
    ensures CountRead(EventsOf(io, fd)) <= 0xffff && CountWrite(EventsOf(io, fd)) <= 0xffff
  {
    if fd in io { assert CountedSlot(fd, io[fd]); }
  }

  lemma ListedHasFd(io: map<int, IoSlot>, ev: Event)
    requires Counted(io) && ev in EventsOf(io, ev.fd)
    ensures ev.fd >= 0
  {
    assert CountedSlot(ev.fd, io[ev.fd]);
  }

  lemma NextCounts(events: seq<Event>, r: Request, accepted: bool, fd: int)
    requires accepted && r.DelEvent? && r.ev.fd == fd ==> r.ev in events
    ensures CountRead(NextList(events, r, accepted, fd)) == CountRead(events) + ReadDelta(r, accepted, fd)
    ensures CountWrite(NextList(events, r, accepted, fd)) == CountWrite(events) + WriteDelta(r, accepted, fd)
  {
    if r.AddEvent? {
      CountsAppend(events, [r.ev]);
      CountsOne(r.ev);
    }
  }

  /** Whether r is accepted is told by the requests before it. */
  lemma JudgedByRequests(requests: seq<Request>, accepted: seq<bool>, first: map<int, IoSlot>, io: map<int, IoSlot>, r: Request)
    requires |accepted| == |requests| && Tallied(requests, accepted, first, io) && Counted(io)
    requires !r.DispatchNow? ==>
               (r.ev in EventsOf(io, r.ev.fd) <==> LastWasAdd(requests, accepted, r.ev, r.ev in EventsOf(first, r.ev.fd)))
    ensures Fitting(io, r) == Acceptable(requests, accepted, first, r)
  {
    hide Counted, EventsOf;
    if r.AddEvent? {
      CountsFit(io, r.ev.fd);
      CountsAppend(EventsOf(io, r.ev.fd), [r.ev]);
      CountsOne(r.ev);
    }
  }

  lemma TalliedNext(requests: seq<Request>, accepted: seq<bool>, first: map<int, IoSlot>, io: map<int, IoSlot>, r: Request,
                    ok: bool, io2: map<int, IoSlot>)
    requires |accepted| == |requests| && Tallied(requests, accepted, first, io)
    requires ok == Fitting(io, r)
    requires forall f :: EventsOf(io2, f) == NextList(EventsOf(io, f), r, ok, f)
    ensures Tallied(requests + [r], accepted + [ok], first, io2)
  {
    hide NextList, EventsOf;
    var longer, oks, n := requests + [r], accepted + [ok], |requests|;
    assert longer[..n] == requests && oks[..n] == accepted;
    forall f
      ensures CountRead(EventsOf(io2, f)) == Readers(longer, oks, f, CountRead(EventsOf(first, f)))
      ensures CountWrite(EventsOf(io2, f)) == Writers(longer, oks, f, CountWrite(EventsOf(first, f)))
    {
      NextCounts(EventsOf(io, f), r, ok, f);
    }
  }

  lemma LastNext(requests: seq<Request>, accepted: seq<bool>, r: Request, ok: bool, ev: Event, first: bool)
    requires |accepted| == |requests|
    ensures LastWasAdd(requests + [r], accepted + [ok], ev, first) ==
            Next(r, ok, ev, LastWasAdd(requests, accepted, ev, first))
  {
    var longer, oks, n := requests + [r], accepted + [ok], |requests|;
    assert longer[..n] == requests && oks[..n] == accepted;
  }

  /** Each request was accepted exactly if it was acceptable after those before it. */
  ghost predicate Judged(requests: seq<Request>, accepted: seq<bool>, first: map<int, IoSlot>) {
    && |accepted| <= |requests|
    && forall j :: 0 <= j < |accepted| ==>
         accepted[j] == Acceptable(requests[..j], accepted[..j], first, requests[j])
  }

  lemma NoRequests(requests: seq<Request>, first: map<int, IoSlot>)
    ensures requests[..0] == [] && Judged(requests, [], first) && Tallied([], [], first, first)
    ensures forall ev: Event, was: bool :: LastWasAdd([], [], ev, was) == was
  {
  }

  lemma JudgedNext(requests: seq<Request>, accepted: seq<bool>, first: map<int, IoSlot>, ok: bool)
    requires Judged(requests, accepted, first) && |accepted| < |requests|
    requires ok == Acceptable(requests[..|accepted|], accepted, first, requests[|accepted|])
    ensures Judged(requests, accepted + [ok], first)
  {
    hide Acceptable;
    var oks := accepted + [ok];
    forall j | 0 <= j < |oks| ensures oks[j] == Acceptable(requests[..j], oks[..j], first, requests[j]) {
      assert oks[..j] == accepted[..j];
      if j == |accepted| { assert accepted[..j] == accepted; }
    }
  }

  lemma OneMore(requests: seq<Request>, accepted: seq<bool>, first: map<int, IoSlot>, io: map<int, IoSlot>, ok: bool,
                io2: map<int, IoSlot>)
    requires |accepted| < |requests| && Judged(requests, accepted, first) && Counted(io)
    requires var i := |accepted|; var r := requests[i];
             && Tallied(requests[..i], accepted, first, io) && ok == Fitting(io, r)
             && (!r.DispatchNow? ==>
                   (r.ev in EventsOf(io, r.ev.fd) <==>
                    LastWasAdd(requests[..i], accepted, r.ev, r.ev in EventsOf(first, r.ev.fd))))
             && (forall f :: EventsOf(io2, f) == NextList(EventsOf(io, f), r, ok, f))
    ensures Judged(requests, accepted + [ok], first)
    ensures Tallied(requests[..|accepted| + 1], accepted + [ok], first, io2)
  {
    hide *;
    var i := |accepted|;
    TalliedMore(requests, i, accepted, first, io, ok, io2);
    JudgedMore(requests, accepted, first, io, ok);
  }

  lemma TalliedMore(requests: seq<Request>, i: nat, accepted: seq<bool>, first: map<int, IoSlot>, io: map<int, IoSlot>, ok: bool,
                    io2: map<int, IoSlot>)
    requires i == |accepted| < |requests| && Tallied(requests[..i], accepted, first, io) && ok == Fitting(io, requests[i])
    requires forall f :: EventsOf(io2, f) == NextList(EventsOf(io, f), requests[i], ok, f)
    ensures Tallied(requests[..i + 1], accepted + [ok], first, io2)
  {
    hide *;
    TalliedNext(requests[..i], accepted, first, io, requests[i], ok, io2);
    assert requests[..i + 1] == requests[..i] + [requests[i]];
  }

  lemma JudgedMore(requests: seq<Request>, accepted: seq<bool>, first: map<int, IoSlot>, io: map<int, IoSlot>, ok: bool)
    requires |accepted| < |requests| && Judged(requests, accepted, first) && Counted(io)
    requires var i := |accepted|; var r := requests[i];
             && Tallied(requests[..i], accepted, first, io) && ok == Fitting(io, r)
             && (!r.DispatchNow? ==>
                   (r.ev in EventsOf(io, r.ev.fd) <==>
                    LastWasAdd(requests[..i], accepted, r.ev, r.ev in EventsOf(first, r.ev.fd))))
    ensures Judged(requests, accepted + [ok], first)
  {
    hide *;
    var i := |accepted|;
    JudgedByRequests(requests[..i], accepted, first, io, requests[i]);
    JudgedNext(requests, accepted, first, ok);
  }

  /** One request to both backends.  event_add passes on an event that is not in the map, event_del one that is. */
  method Pass(coalescing: EventBase, immediate: EventBase, r: Request) returns (accepted: bool)
    requires coalescing.Valid() && immediate.Valid() && coalescing.changelist && !immediate.changelist
    requires coalescing != immediate && coalescing.epoll != immediate.epoll
    requires forall f :: EventsOf(coalescing.io, f) == EventsOf(immediate.io, f)
    modifies coalescing, immediate, coalescing.epoll, immediate.epoll
    ensures coalescing.Valid() && immediate.Valid()
    ensures coalescing.epoll.refused == old(coalescing.epoll.refused)
    ensures immediate.epoll.refused == old(immediate.epoll.refused)
    ensures forall f :: EventsOf(coalescing.io, f) == EventsOf(immediate.io, f)
    ensures accepted == Fitting(old(immediate.io), r)
    ensures forall f :: EventsOf(immediate.io, f) == NextList(EventsOf(old(immediate.io), f), r, accepted, f)
    ensures forall e: Event :: old(allocated(e)) ==>
              (e in EventsOf(immediate.io, e.fd) <==> Next(r, accepted, e, e in EventsOf(old(immediate.io), e.fd)))
  {
    hide Indexed, Tracked, Counted, Wants, Without, Registered, TakenOut;
    accepted := true;
    match r {
      case AddEvent(ev) =>
        accepted := ev !in EventsOf(immediate.io, ev.fd);
        if accepted {
          var e := coalescing.IoAdd(ev.fd, ev);
          e := immediate.IoAdd(ev.fd, ev);
          accepted := e != -1 && ev.fd >= 0;
        }
      case DelEvent(ev) =>
        accepted := ev in EventsOf(immediate.io, ev.fd);
        if accepted {
          ListedHasFd(immediate.io, ev);
          var e := coalescing.IoDel(ev.fd, ev);
          e := immediate.IoDel(ev.fd, ev);
        }
      case DispatchNow =>
        coalescing.Dispatch();
        immediate.Dispatch();
    }
  }

  /** The two backends, given the same requests: event_add passes on an event that is not in the map, event_del
      one that is.  An event ends up listed exactly if the last request for it that was accepted was an add.  The
      kernel refuses nothing, and after the next dispatch both kernels report, for each descriptor, exactly what
      the listed events wait for. */
  method Replay(coalescing: EventBase, immediate: EventBase, requests: seq<Request>) returns (accepted: seq<bool>)
    requires coalescing.Valid() && immediate.Valid() && coalescing.changelist && !immediate.changelist
    requires coalescing != immediate && coalescing.epoll != immediate.epoll
    requires forall f :: EventsOf(coalescing.io, f) == EventsOf(immediate.io, f)
    modifies coalescing, immediate, coalescing.epoll, immediate.epoll
    ensures coalescing.Valid() && immediate.Valid()
    ensures coalescing.epoll.refused == old(coalescing.epoll.refused)
    ensures immediate.epoll.refused == old(immediate.epoll.refused)
    ensures |accepted| == |requests| && Judged(requests, accepted, old(immediate.io))
    ensures forall ev: Event :: old(allocated(ev)) ==>
              (ev in EventsOf(immediate.io, ev.fd) <==>
               LastWasAdd(requests, accepted, ev, ev in EventsOf(old(immediate.io), ev.fd)))
    ensures forall f :: EventsOf(coalescing.io, f) == EventsOf(immediate.io, f)
    ensures forall f :: Registered(coalescing.epoll.interest, f) == Registered(immediate.epoll.interest, f)
    ensures forall f :: Registered(immediate.epoll.interest, f).read <==>
              exists ev :: ev in EventsOf(immediate.io, f) && ev.events.read
    ensures forall f :: Registered(immediate.epoll.interest, f).write <==>
              exists ev :: ev in EventsOf(immediate.io, f) && ev.events.write
  {
    hide Indexed, Tracked, Counted, Wants, CanAdd, Registered, CountRead, CountWrite, Acceptable, Tallied, LastWasAdd, Next, NextList,
         Judged, Fitting;
    ghost var first := immediate.io;
    accepted := [];
    NoRequests(requests, first);
    var i := 0;
    while i < |requests|
      invariant coalescing.Valid() && immediate.Valid() && |accepted| == i <= |requests|
      invariant coalescing.epoll.refused == old(coalescing.epoll.refused)
      invariant immediate.epoll.refused == old(immediate.epoll.refused)
      invariant forall f :: EventsOf(coalescing.io, f) == EventsOf(immediate.io, f)
      invariant Judged(requests, accepted, first)
      invariant Tallied(requests[..i], accepted, first, immediate.io)
      invariant forall ev: Event :: old(allocated(ev)) ==>
                  (ev in EventsOf(immediate.io, ev.fd) <==>
                   LastWasAdd(requests[..i], accepted, ev, ev in EventsOf(first, ev.fd)))
    {
      ghost var was := immediate.io;
      var ok := Pass(coalescing, immediate, requests[i]);
      OneMore(requests, accepted, first, was, ok, immediate.io);
      forall ev: Event | old(allocated(ev))
        ensures ev in EventsOf(immediate.io, ev.fd) <==>
                LastWasAdd(requests[..i + 1], accepted + [ok], ev, ev in EventsOf(first, ev.fd))
      {
        assert ev in EventsOf(was, ev.fd) <==> LastWasAdd(requests[..i], accepted, ev, ev in EventsOf(first, ev.fd));
        LastNext(requests[..i], accepted, requests[i], ok, ev, ev in EventsOf(first, ev.fd));
        assert requests[..i + 1] == requests[..i] + [requests[i]];
      }
      accepted := accepted + [ok];
      i := i + 1;
    }
    coalescing.Dispatch();
    immediate.Dispatch();
    forall f
      ensures Registered(immediate.epoll.interest, f).read <==> exists ev :: ev in EventsOf(immediate.io, f) && ev.events.read
      ensures Registered(immediate.epoll.interest, f).write <==> exists ev :: ev in EventsOf(immediate.io, f) && ev.events.write
    {
      WantsExactly(EventsOf(immediate.io, f));
    }
    assert requests[..i] == requests;
  }
}
