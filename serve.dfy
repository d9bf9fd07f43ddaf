/**
 * The development server's sequential logic: the `.html` fallback of its file
 * system, the event broker that fans rebuild events out to live-reload
 * clients, the stream of server-sent-event frames a client receives, the
 * debounced rebuild schedule driven by file-system events, and the rebuild
 * step that publishes only on success.
 */
module Serve {
  import opened Wrappers
  import opened Text

  // ---------------------------------------------------------------------------
  // HTMLFileSystem.Open
  // ---------------------------------------------------------------------------

  /**
   * The served directory: the paths that exist, and the paths whose opening
   * fails for a reason other than not existing (with that reason).
   */
  datatype Dir = Dir(files: set<string>, failures: map<string, string>)

  datatype OpenResult =
    | Opened(path: string)
    | NotExist(path: string)
    | OtherError(path: string, reason: string)

  /** http.Dir.Open on one path. */
  function DirOpen(d: Dir, name: string): OpenResult {
    if name in d.failures then OtherError(name, d.failures[name])
    else if name in d.files then Opened(name)
    else NotExist(name)
  }

  /** HTMLFileSystem.Open: the path as given, or, when that does not exist, the path with `.html` appended. */
  function Open(d: Dir, name: string): (r: OpenResult)
    ensures name in d.files && name !in d.failures ==> r == Opened(name)
    ensures name !in d.files && name !in d.failures && name + ".html" in d.files && name + ".html" !in d.failures
      ==> r == Opened(name + ".html")
    ensures name in d.failures ==> r == OtherError(name, d.failures[name])
    ensures name !in d.files && name !in d.failures && (name + ".html" !in d.files || name + ".html" in d.failures)
      ==> r == NotExist(name)
    ensures r.Opened? ==> r.path in d.files && (r.path == name || r.path == name + ".html")
  {
    var first := DirOpen(d, name);
    if first.NotExist? then
      var second := DirOpen(d, name + ".html");
      if second.Opened? then second else first
    else first
  }

  // ---------------------------------------------------------------------------
  // The event broker
  // ---------------------------------------------------------------------------

  /** A subscriber's channel, as the queue of events delivered to it. */
  class Channel {
    var events: seq<string>
    var closed: bool

    constructor ()
      ensures events == [] && !closed
    {
      events := [];
      closed := false;
    }
  }

  /**
   * EventBroker and its control loop: a registry from subscriber id to
   * channel, and the counter that ids are drawn from.
   */
  class EventBroker {
    var subscribers: map<nat, Channel>
    var idgen: nat

    /** Ids come from the counter, channels are open, and no channel is registered twice. */
    ghost predicate Valid()
      reads this, subscribers.Values
    {
      && (forall id :: id in subscribers ==> 1 <= id <= idgen)
      && (forall id :: id in subscribers ==> !subscribers[id].closed)
      && (forall i, j :: i in subscribers && j in subscribers && i != j ==> subscribers[i] != subscribers[j])
    }

    /** newEventBroker: no subscribers, counter at zero. */
    constructor ()
      ensures Valid()
      ensures subscribers == map[] && idgen == 0
    {
      subscribers := map[];
      idgen := 0;
    }

    /** subscribe: the next id and a new, empty channel, registered under that id. */
    method Subscribe() returns (id: nat, ch: Channel)
      requires Valid()
      modifies this
      ensures Valid()
      ensures id == old(idgen) + 1 && idgen == id
      ensures id !in old(subscribers)
      ensures fresh(ch) && ch.events == [] && !ch.closed
      ensures subscribers == old(subscribers)[id := ch]
    {
      idgen := idgen + 1;
      id := idgen;
      ch := new Channel();
      subscribers := subscribers[id := ch];
    }

    /**
     * unsubscribe: closes the id's channel and removes it; closing the channel
     * of an unregistered id panics, so the id must be registered.
     */
    method Unsubscribe(id: nat)
      requires Valid() && id in subscribers
      modifies this, subscribers[id]
      ensures Valid()
      ensures subscribers == old(subscribers) - {id} && idgen == old(idgen)
      ensures old(subscribers[id]).closed && old(subscribers[id]).events == old(subscribers[id].events)
    {
      var ch := subscribers[id];
      ch.closed := true;
      subscribers := subscribers - {id};
    }

    /** publish: the event is appended to the queue of every registered subscriber. */
    method Publish(event: string)
      requires Valid()
      modifies subscribers.Values
      ensures Valid()
      ensures forall id :: id in subscribers ==> subscribers[id].events == old(subscribers[id].events) + [event]
    {
      var pending := subscribers.Keys;
      while pending != {}
        invariant pending <= subscribers.Keys
        invariant forall id :: id in subscribers && id !in pending ==>
          subscribers[id].events == old(subscribers[id].events) + [event]
        invariant forall id :: id in pending ==> subscribers[id].events == old(subscribers[id].events)
        invariant forall id :: id in subscribers ==> subscribers[id].closed == old(subscribers[id].closed)
        decreases pending
      {
        var id :| id in pending;
        var ch := subscribers[id];
        ch.events := ch.events + [event];
        pending := pending - {id};
      }
    }
  }

  // ---------------------------------------------------------------------------
  // The server-sent-event stream
  // ---------------------------------------------------------------------------

  /** An empty, unnamed server-sent event. */
  const Frame := "data\n\n"

  /** The response body written for the events a client receives: one frame per event. */
  method WriteFrames(events: seq<string>) returns (body: string)
    ensures |body| == |Frame| * |events|
    ensures forall i :: 0 <= i < |events| ==> body[|Frame| * i..|Frame| * (i + 1)] == Frame
  {
    body := "";
    var i := 0;
    while i < |events|
      invariant 0 <= i <= |events|
      invariant |body| == |Frame| * i
      invariant forall k :: 0 <= k < i ==> body[|Frame| * k..|Frame| * (k + 1)] == Frame
    {
      ghost var prev := body;
      body := body + Frame;
      forall k | 0 <= k < i + 1
        ensures body[|Frame| * k..|Frame| * (k + 1)] == Frame
      {
        if k < i {
          assert body[|Frame| * k..|Frame| * (k + 1)] == prev[|Frame| * k..|Frame| * (k + 1)];
        }
      }
      i := i + 1;
    }
  }

  /** The rebuild events published one after another, in order. */
  method PublishEach(broker: EventBroker, published: seq<string>)
    requires broker.Valid()
    modifies broker.subscribers.Values
    ensures broker.Valid()
    ensures forall id :: id in broker.subscribers ==>
      broker.subscribers[id].events == old(broker.subscribers[id].events) + published
  {
    var i := 0;
    while i < |published|
      invariant 0 <= i <= |published|
      invariant broker.Valid()
      invariant forall j :: j in broker.subscribers ==>
        broker.subscribers[j].events == old(broker.subscribers[j].events) + published[..i]
    {
      assert published[..i + 1] == published[..i] + [published[i]];
      label before:
      broker.Publish(published[i]);
      forall j | j in broker.subscribers
        ensures broker.subscribers[j].events == old(broker.subscribers[j].events) + published[..i + 1]
      {
        assert broker.subscribers[j].events == old@before(broker.subscribers[j].events) + [published[i]];
        Regroup(old(broker.subscribers[j].events), published[..i], [published[i]]);
      }
      i := i + 1;
    }
    assert published[..i] == published;
  }

  /**
   * The events handler for one client, with the events published while it is
   * connected given in order: it subscribes, receives each published event as
   * one frame, and unsubscribes when the request ends.
   */
  method EventStream(broker: EventBroker, published: seq<string>) returns (body: string)
    requires broker.Valid()
    modifies broker, broker.subscribers.Values
    ensures broker.Valid()
    ensures broker.subscribers == old(broker.subscribers) && broker.idgen == old(broker.idgen) + 1
    ensures forall id :: id in broker.subscribers ==>
      broker.subscribers[id].events == old(broker.subscribers[id].events) + published
    ensures |body| == |Frame| * |published|
    ensures forall i :: 0 <= i < |published| ==> body[|Frame| * i..|Frame| * (i + 1)] == Frame
  {
    var id, ch := broker.Subscribe();
    PublishEach(broker, published);
    assert broker.subscribers[id] == ch;
    assert ch.events == [] + published == published;
    body := WriteFrames(ch.events);
    broker.Unsubscribe(id);
  }

  // ---------------------------------------------------------------------------
  // Debounced rebuilds
  // ---------------------------------------------------------------------------

  datatype Op = Create | Write | Remove | Rename | Chmod

  /** A file-system notification at a logical time, in milliseconds. */
  datatype FsEvent = FsEvent(name: string, ops: set<Op>, time: nat)

  /** The delay between the last relevant change and the rebuild. */
  const DebounceDelay: nat := 100

  /**
   * The times at which rebuilds run, for a timer slot armed with deadline
   * `pending` and the notifications that follow, in order.  A deadline not
   * later than the next notification fires before it; a notification that
   * carries Chmod is ignored, any other one re-arms the slot
   * DebounceDelay after it.  A deadline still pending after the last
   * notification fires.
   */
  function Rebuilds(pending: Option<nat>, events: seq<FsEvent>): seq<nat>
    decreases |events|
  {
    if events == [] then
      if pending.Some? then [pending.value] else []
    else
      var e := events[0];
      var fires := pending.Some? && pending.value <= e.time;
      var fired := if fires then [pending.value] else [];
      var left := if fires then None else pending;
      if Chmod in e.ops then fired + Rebuilds(left, events[1..])
      else fired + Rebuilds(Some(e.time + DebounceDelay), events[1..])
  }

  /**
   * setupWatcher's timer: armed at delay 0 for the initial build, then
   * stopped and re-armed on every notification that is not a Chmod.
   */
  method Debounce(events: seq<FsEvent>) returns (fired: seq<nat>)
    ensures fired == Rebuilds(Some(0), events)
  {
    var deadline: Option<nat> := Some(0);
    fired := [];
    var i := 0;
    while i < |events|
      invariant 0 <= i <= |events|
      invariant fired + Rebuilds(deadline, events[i..]) == Rebuilds(Some(0), events)
    {
      var e := events[i];
      assert events[i..][1..] == events[i + 1..];
      if deadline.Some? && deadline.value <= e.time {
        fired := fired + [deadline.value];
        deadline := None;
      }
      if Chmod !in e.ops {
        deadline := Some(e.time + DebounceDelay);
      }
      i := i + 1;
    }
    if deadline.Some? {
      fired := fired + [deadline.value];
    }
  }

  /** Notifications arrive in time order. */
  ghost predicate Chronological(events: seq<FsEvent>) {
    forall i, j :: 0 <= i < j < |events| ==> events[i].time <= events[j].time
  }

  /** The notifications that are not Chmod, in order. */
  function Relevant(events: seq<FsEvent>): seq<FsEvent>
    decreases |events|
  {
    if events == [] then []
    else if Chmod in events[0].ops then Relevant(events[1..])
    else [events[0]] + Relevant(events[1..])
  }

  /** Relevant keeps exactly the notifications without Chmod, and no more of them than there were. */
  lemma {:induction false} RelevantKeeps(events: seq<FsEvent>)
    ensures |Relevant(events)| <= |events|
    ensures forall e :: e in Relevant(events) ==> e in events && Chmod !in e.ops
    ensures forall e :: e in events && Chmod !in e.ops ==> e in Relevant(events)
    decreases |events|
  {
    if events != [] {
      RelevantKeeps(events[1..]);
      assert events == [events[0]] + events[1..];
    }
  }

  /** A deadline not later than the next notification fires before it. */
  lemma FireDue(d: nat, events: seq<FsEvent>)
    requires events == [] || d <= events[0].time
    ensures Rebuilds(Some(d), events) == [d] + Rebuilds(None, events)
  {
  }

  /** The initial build runs at once, before any notification is handled. */
  lemma InitialRebuild(events: seq<FsEvent>)
    ensures Rebuilds(Some(0), events) == [0] + Rebuilds(None, events)
  {
    FireDue(0, events);
  }

  /** No notification comes before time t. */
  predicate NotBefore(events: seq<FsEvent>, t: nat) {
    forall i :: 0 <= i < |events| ==> t <= events[i].time
  }

  lemma {:induction false} RelevantNotBefore(events: seq<FsEvent>, t: nat)
    requires NotBefore(events, t)
    ensures NotBefore(Relevant(events), t)
    decreases |events|
  {
    if events != [] {
      assert NotBefore(events[1..], t) by {
        forall i | 0 <= i < |events[1..]|
          ensures t <= events[1..][i].time
        {
          assert events[1..][i] == events[i + 1];
        }
      }
      RelevantNotBefore(events[1..], t);
    }
  }

  /** Chmod notifications never change the rebuild schedule. */
  lemma {:induction false} ChmodIgnored(pending: Option<nat>, events: seq<FsEvent>)
    requires Chronological(events)
    ensures Rebuilds(pending, events) == Rebuilds(pending, Relevant(events))
    decreases |events|
  {
    if events != [] {
      var e := events[0];
      var rest := events[1..];
      assert Chronological(rest) by {
        forall i, j | 0 <= i < j < |rest|
          ensures rest[i].time <= rest[j].time
        {
          assert rest[i] == events[i + 1] && rest[j] == events[j + 1];
        }
      }
      if Chmod in e.ops {
        if pending.Some? && pending.value <= e.time {
          ChmodIgnored(None, rest);
          assert NotBefore(rest, e.time) by {
            forall i | 0 <= i < |rest|
              ensures e.time <= rest[i].time
            {
              assert rest[i] == events[i + 1];
            }
          }
          RelevantNotBefore(rest, e.time);
          FireDue(pending.value, Relevant(rest));
        } else {
          ChmodIgnored(pending, rest);
        }
      } else {
        ChmodIgnored(Some(e.time + DebounceDelay), rest);
        assert Relevant(events) == [e] + Relevant(rest);
        assert ([e] + Relevant(rest))[1..] == Relevant(rest);
      }
    }
  }

  /** Consecutive notifications are closer together than the debounce delay. */
  predicate Burst(events: seq<FsEvent>) {
    forall i :: 0 <= i < |events| - 1 ==> events[i + 1].time < events[i].time + DebounceDelay
  }

  /** Consecutive notifications are at least the debounce delay apart. */
  predicate Spaced(events: seq<FsEvent>) {
    forall i :: 0 <= i < |events| - 1 ==> events[i].time + DebounceDelay <= events[i + 1].time
  }

  predicate NoChmod(events: seq<FsEvent>) {
    forall i :: 0 <= i < |events| ==> Chmod !in events[i].ops
  }

  /** A burst of changes, with nothing due before it, yields a single rebuild, after the last change. */
  lemma {:induction false} BurstCoalesces(pending: Option<nat>, events: seq<FsEvent>)
    requires events != [] && NoChmod(events) && Burst(events)
    requires pending.None? || events[0].time < pending.value
    ensures Rebuilds(pending, events) == [events[|events| - 1].time + DebounceDelay]
    decreases |events|
  {
    var e := events[0];
    if |events| > 1 {
      assert events[1].time < e.time + DebounceDelay;
      BurstCoalesces(Some(e.time + DebounceDelay), events[1..]);
    }
  }

  /** One rebuild DebounceDelay after each change. */
  function Deadlines(events: seq<FsEvent>): seq<nat> {
    if events == [] then [] else [events[0].time + DebounceDelay] + Deadlines(events[1..])
  }

  /** The i-th deadline is DebounceDelay after the i-th change. */
  lemma {:induction false} DeadlinesAt(events: seq<FsEvent>)
    ensures |Deadlines(events)| == |events|
    ensures forall i :: 0 <= i < |events| ==> Deadlines(events)[i] == events[i].time + DebounceDelay
  {
    if events != [] {
      DeadlinesAt(events[1..]);
      forall i | 0 < i < |events|
        ensures Deadlines(events)[i] == events[i].time + DebounceDelay
      {
        assert Deadlines(events)[i] == Deadlines(events[1..])[i - 1];
        assert events[1..][i - 1] == events[i];
      }
    }
  }

  lemma SpacedTail(events: seq<FsEvent>)
    requires events != [] && NoChmod(events) && Spaced(events)
    ensures NoChmod(events[1..]) && Spaced(events[1..])
  {
    var rest := events[1..];
    forall i | 0 <= i < |rest|
      ensures Chmod !in rest[i].ops
    {
      assert rest[i] == events[i + 1];
    }
    forall i | 0 <= i < |rest| - 1
      ensures rest[i].time + DebounceDelay <= rest[i + 1].time
    {
      assert rest[i] == events[i + 1] && rest[i + 1] == events[i + 2];
    }
  }

  /** Changes at least the debounce delay apart each yield their own rebuild. */
  lemma {:induction false} SpacedRebuildEach(events: seq<FsEvent>)
    requires NoChmod(events) && Spaced(events)
    ensures Rebuilds(None, events) == Deadlines(events)
    decreases |events|
  {
    if events != [] {
      var e := events[0];
      var rest := events[1..];
      assert Chmod !in e.ops;
      SpacedTail(events);
      SpacedRebuildEach(rest);
      assert Rebuilds(None, events) == Rebuilds(Some(e.time + DebounceDelay), rest);
      if rest != [] {
        assert e.time + DebounceDelay <= rest[0].time;
        FireDue(e.time + DebounceDelay, rest);
      }
    }
  }

  /** With the initial build, a burst of changes means two builds in all: at 0 and after the burst. */
  lemma BurstAfterStart(events: seq<FsEvent>)
    requires events != [] && NoChmod(events) && Burst(events)
    ensures Rebuilds(Some(0), events) == [0, events[|events| - 1].time + DebounceDelay]
  {
    InitialRebuild(events);
    BurstCoalesces(None, events);
  }

  // ---------------------------------------------------------------------------
  // rebuildSite
  // ---------------------------------------------------------------------------

  /**
   * rebuildSite, given the outcomes of re-adding the watches, of loading the
   * site and of building it (Build runs only after a successful Load).  The
   * watch error is only logged; "rebuild" is published only when the site
   * loaded and built.  Returns the lines it prints.
   */
  method RebuildSite(broker: EventBroker, watch: Outcome<string>, load: Outcome<string>,
                     build: Outcome<string>, siteUrl: string) returns (log: seq<string>)
    requires broker.Valid()
    modifies broker.subscribers.Values
    ensures broker.Valid()
    ensures forall id :: id in broker.subscribers ==>
      broker.subscribers[id].events ==
        old(broker.subscribers[id].events) + (if load.Pass? && build.Pass? then ["rebuild"] else [])
    ensures |log| == if watch.Fail? then 3 else 2
    ensures log[0] == "building site"
    ensures watch.Fail? ==> log[1] == "couldn't add watchers: " + watch.error
    ensures load.Fail? ==> log[|log| - 1] == "load error: " + load.error
    ensures load.Pass? && build.Fail? ==> log[|log| - 1] == "build error: " + build.error
    ensures load.Pass? && build.Pass? ==> log[|log| - 1] == "done\nserving at " + siteUrl
  {
    log := ["building site"];
    if watch.Fail? {
      log := log + ["couldn't add watchers: " + watch.error];
    }
    if load.Fail? {
      log := log + ["load error: " + load.error];
      return;
    }
    if build.Fail? {
      log := log + ["build error: " + build.error];
      return;
    }
    broker.Publish("rebuild");
    log := log + ["done\nserving at " + siteUrl];
  }
}
