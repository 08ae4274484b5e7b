/** The part of the Firestore store that its `watchMu` guards: the sequence counter, the bounded ring of
  recent events, and the watchers. The ring refines an unbounded history. */
module FirestoreChangeLog {
  import opened Wrappers
  import opened FirestoreEvents
  import opened FirestoreWatch

  const CHANGE_LOG_SIZE: nat := 1024

  // ---------- the ring ----------

  /** The slot `i` places after `start`, in a ring of `n`. */
  function Slot(start: nat, i: nat, n: nat): (k: nat)
    requires start < n && i <= n
    ensures k < n
  {
    if start + i < n then start + i else start + i - n
  }

  lemma {:induction false} SlotIsModulo(start: nat, i: nat, n: nat)
    requires start < n && i <= n
    ensures Slot(start, i, n) == (start + i) % n
  {
    if n <= start + i { ModuloOnce(start + i, n); }
  }

  lemma ModuloOnce(x: nat, n: nat)
    requires 0 < n <= x < 2 * n
    ensures x % n == x - n
  {}

  /** Reading `len` slots from `start`, modulo the capacity, yields the last events of the history. */
  ghost predicate RingHolds<D>(slots: seq<Option<Event<D>>>, start: nat, len: nat, history: seq<Event<D>>) {
    && start < |slots|
    && len == |Retained(history, |slots|)|
    && forall i :: 0 <= i < len ==> slots[Slot(start, i, |slots|)] == Some(Retained(history, |slots|)[i])
  }

  lemma RetainedAppend<D>(history: seq<Event<D>>, e: Event<D>, n: nat)
    requires n > 0
    ensures Retained(history + [e], n) ==
            if |history| < n then Retained(history, n) + [e] else Retained(history, n)[1..] + [e]
  {}

  /** Writing behind the last entry, and dropping the oldest one when the ring is full, keeps the ring
    holding the end of the history. */
  lemma {:induction false} RingAppend<D>(slots: seq<Option<Event<D>>>, start: nat, len: nat, history: seq<Event<D>>, e: Event<D>)
    requires RingHolds(slots, start, len, history)
    ensures var n := |slots|;
            var after := slots[Slot(start, len, n) := Some(e)];
            if len < n then RingHolds(after, start, len + 1, history + [e])
            else RingHolds(after, Slot(start, 1, n), len, history + [e])
  {
    var n := |slots|;
    var after := slots[Slot(start, len, n) := Some(e)];
    var now := Retained(history + [e], n);
    RetainedAppend(history, e, n);
    if len == n {
      forall i | 0 <= i < len ensures after[Slot(Slot(start, 1, n), i, n)] == Some(now[i]) {
        if i + 1 < len { assert slots[Slot(start, i + 1, n)] == Some(Retained(history, n)[i + 1]); }
      }
    }
  }

  lemma RingBounds<D>(slots: seq<Option<Event<D>>>, start: nat, len: nat, history: seq<Event<D>>)
    requires RingHolds(slots, start, len, history)
    ensures start < |slots| && len <= |slots|
  {}

  // ---------- the change log ----------

  class ChangeLog<D> {
    var watchers: map<int, Watcher<D>>
    var seqNo: nat
    const changeLog: array<Option<Event<D>>>
    var logStart: nat
    var logLen: nat

    /** Every event since the process started. */
    ghost var history: seq<Event<D>>
    ghost var logs: map<int, WatchLog<D>>

    /** The events so far, the watchers and what became of their events. */
    ghost function Now(): Watching<D>
      reads this
    {
      Watching(history, watchers, logs)
    }

    ghost predicate Valid()
      reads this, changeLog
    {
      && Numbered(history)
      && seqNo == |history| % TWO64
      && RingHolds(changeLog[..], logStart, logLen, history)
      && WatchersOk(Now())
    }

    /** The store is built with the capacity CHANGE_LOG_SIZE; nothing below depends on its value. */
    constructor (capacity: nat)
      requires capacity > 0
      ensures Valid() && fresh(changeLog)
      ensures Now() == Watching([], map[], map[]) && changeLog.Length == capacity
    {
      watchers := map[];
      seqNo := 0;
      changeLog := new Option<Event<D>>[capacity](_ => None);
      logStart := 0;
      logLen := 0;
      history := [];
      logs := map[];
    }

    method AddWatcher(id: int, target: Target)
      requires Valid()
      modifies this`watchers, this`logs
      ensures Now() == Registered(old(Now()), id, target)
      ensures Valid()
    {
      hide RingHolds, Numbered, WatcherOk;
      RegisteredOk(target, history);
      watchers := watchers[id := Watcher(target, [])];
      logs := logs[id := WatchLog(|history|, [], [])];
    }

    method RemoveWatcher(id: int)
      requires Valid()
      modifies this`watchers, this`logs
      ensures Now() == Unregistered(old(Now()), id)
      ensures Valid()
    {
      hide RingHolds, Numbered, WatcherOk;
      if id in watchers {
        watchers := watchers - {id};
        logs := logs - {id};
      } else {
        assert watchers - {id} == watchers && logs - {id} == logs;
      }
    }

    /** The consumer's end of a watcher's channel: takes the oldest event, if there is one. */
    method TakeEvent(id: int) returns (e: Option<Event<D>>)
      requires Valid() && id in watchers
      modifies this`watchers, this`logs
      ensures e == if old(watchers[id].ch) == [] then None else Some(old(watchers[id].ch)[0])
      ensures Now() == Consumed(old(Now()), id)
      ensures Valid()
    {
      hide RingHolds, Numbered, WatcherOk;
      assert watchers.Keys == logs.Keys;
      TookOk(watchers[id], logs[id], history);
      var w := watchers[id];
      if w.ch == [] {
        assert watchers[id := w] == watchers && logs[id := logs[id]] == logs;
        return None;
      }
      e := Some(w.ch[0]);
      watchers := watchers[id := w.(ch := w.ch[1..])];
      logs := logs[id := logs[id].(taken := logs[id].taken + [w.ch[0]])];
    }

    /** Numbers an event, appends it to the ring and offers it to every watcher: none is lost to a watcher
      whose channel has room, and nothing else about the watchers changes. */
    method NotifyWatchers(name: string, kind: ChangeType, doc: Option<D>)
      requires Valid()
      modifies this, changeLog
      ensures Now() == Notified(old(Now()), Event(name, kind, doc, (|old(history)| + 1) % TWO64))
      ensures Valid()
    {
      hide RingHolds, Numbered, WatchersOk, OfferAll, OfferAllLogs;
      seqNo := (seqNo + 1) % TWO64;
      var evt := Event(name, kind, doc, seqNo);
      AppendToRing(evt);
      NotifiedOk(Now(), evt);
      NumberedAppend(history, evt);
      OfferToWatchers(evt);
      logs := OfferAllLogs(old(watchers), logs, evt);
      history := history + [evt];
    }

    static lemma NumberedAppend(history: seq<Event<D>>, evt: Event<D>)
      requires Numbered(history) && evt.seqNo == (|history| + 1) % TWO64
      ensures Numbered(history + [evt])
    {}

    method AppendToRing(evt: Event<D>)
      requires RingHolds(changeLog[..], logStart, logLen, history)
      modifies this`logStart, this`logLen, changeLog
      ensures RingHolds(changeLog[..], logStart, logLen, history + [evt])
    {
      hide RingHolds, Slot;
      RingBounds(changeLog[..], logStart, logLen, history);
      RingAppend(changeLog[..], logStart, logLen, history, evt);
      SlotIsModulo(logStart, logLen, changeLog.Length);
      SlotIsModulo(logStart, 1, changeLog.Length);
      ghost var slots := changeLog[..];
      var idx := (logStart + logLen) % changeLog.Length;
      changeLog[idx] := Some(evt);
      assert changeLog[..] == slots[idx := Some(evt)];
      if logLen < changeLog.Length {
        logLen := logLen + 1;
      } else {
        logStart := (logStart + 1) % changeLog.Length;
      }
    }

    /** The watchers are visited in an arbitrary order. */
    method OfferToWatchers(evt: Event<D>)
      modifies this`watchers
      ensures changeLog[..] == old(changeLog[..])
      ensures watchers == OfferAll(old(watchers), evt)
    {
      hide Offer;
      ghost var before := watchers;
      var todo := watchers.Keys;
      while todo != {}
        invariant todo <= before.Keys == watchers.Keys
        invariant forall id :: id in before ==>
                    watchers[id] == if id in todo then before[id] else Offer(before[id], evt)
        decreases |todo|
      {
        var id := AnyOf(todo);
        var w := SendIfRoom(watchers[id], evt);
        watchers := watchers[id := w];
        todo := todo - {id};
      }
      assert forall id :: id in before ==> OfferAll(before, evt)[id] == watchers[id];
    }

    /** A send that does not wait: a full channel drops the event. */
    static method SendIfRoom(w: Watcher<D>, evt: Event<D>) returns (after: Watcher<D>)
      ensures after == Offer(w, evt)
    {
      after := w;
      if Matches(w.target, evt.name) {
        if |w.ch| < CHANNEL_CAPACITY {
          after := w.(ch := w.ch + [evt]);
        }
      }
    }

    /** The `i`-th retained event, oldest first. */
    method Entry(i: nat) returns (evt: Event<D>)
      requires RingHolds(changeLog[..], logStart, logLen, history) && i < logLen
      ensures evt == Retained(history, changeLog.Length)[i]
    {
      SlotIsModulo(logStart, i, changeLog.Length);
      assert changeLog[..][Slot(logStart, i, changeLog.Length)] == Some(Retained(history, changeLog.Length)[i]);
      evt := changeLog[(logStart + i) % changeLog.Length].value;
    }

    /** The retained events after `token` that the target covers, or `None` if some were evicted. */
    method ChangesSince(token: nat, target: Target) returns (changes: Option<seq<Event<D>>>)
      requires Valid() && token < TWO64
      ensures changes == FirestoreEvents.ChangesSince(Retained(history, changeLog.Length), token, target)
    {
      assert logLen == |Retained(history, changeLog.Length)|;
      hide RingHolds, Numbered, WatchersOk, Matching, After;
      if logLen == 0 { return Some([]); }
      var oldest := Entry(0);
      if oldest.seqNo > (token + 1) % TWO64 { return None; }
      var events := Select(token, target);
      changes := Some(events);
    }

    method Select(token: nat, target: Target) returns (events: seq<Event<D>>)
      requires RingHolds(changeLog[..], logStart, logLen, history)
      ensures events == Matching(target, After(Retained(history, changeLog.Length), token))
    {
      ghost var log := Retained(history, changeLog.Length);
      assert logLen == |log| && log[0..] == log;
      hide RingHolds, Matches, Matching, After;
      events := [];
      for i := 0 to logLen
        invariant Matching(target, After(log, token)) == events + Matching(target, After(log[i..], token))
      {
        var evt := Entry(i);
        MatchingAfter(log, i, token, target);
        if evt.seqNo > token && Matches(target, evt.name) {
          events := events + [evt];
        }
      }
      MatchingAfterNone(log, token, target);
    }

    static lemma MatchingAfterNone(log: seq<Event<D>>, token: nat, t: Target)
      ensures Matching(t, After(log[|log|..], token)) == []
    {
      assert log[|log|..] == [];
    }

    static lemma MatchingAfter(log: seq<Event<D>>, i: nat, token: nat, t: Target)
      requires i < |log|
      ensures Matching(t, After(log[i..], token)) ==
              (if log[i].seqNo > token && Matches(t, log[i].name) then [log[i]] else []) +
              Matching(t, After(log[i + 1..], token))
    {
      var e, rest := log[i], log[i + 1..];
      assert log[i..][0] == e && log[i..][1..] == rest;
      assert ([e] + After(rest, token))[1..] == After(rest, token);
    }
  }
}
