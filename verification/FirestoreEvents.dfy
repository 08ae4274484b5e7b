/** Change events, the targets that select them, and what a bounded log of them can answer. `D` is how
  an event refers to the document it carries. */
module FirestoreEvents {
  import opened Wrappers
  import opened Text

  const TWO64: int := 0x1_0000_0000_0000_0000

  datatype ChangeType = Added | Modified | Removed

  /** A removal carries no document. */
  datatype Event<+D> = Event(name: string, kind: ChangeType, doc: Option<D>, seqNo: nat)

  /** A document target has a `docName`; a collection target has a `prefix` ending in a slash. */
  datatype Target = Target(prefix: string, docName: string)

  // ---------- which documents a target covers ----------

  predicate DirectChild(name: string, prefix: string) {
    HasPrefix(name, prefix) && '/' !in name[|prefix|..]
  }

  /** The test applied to events. */
  predicate Matches(t: Target, name: string) {
    if t.docName != "" then name == t.docName
    else t.prefix != "" && DirectChild(name, t.prefix)
  }

  /** The test applied to snapshots. */
  predicate InSnapshot(t: Target, name: string) {
    if t.docName != "" then name == t.docName else DirectChild(name, t.prefix)
  }

  /** The two tests agree on every name exactly for the targets that `Listen` admits: those with a
    document name or a prefix. */
  lemma {:induction false} TestsAgree(t: Target)
    ensures (forall name :: InSnapshot(t, name) == Matches(t, name)) <==> t.docName != "" || t.prefix != ""
  {
    if t.docName == "" && t.prefix == "" {
      assert InSnapshot(t, "a") && !Matches(t, "a");
    }
  }

  /** A document target covers its document alone. A collection target covers the names that continue its
    prefix with an identifier, and none below those. */
  lemma {:induction false} CoverageMeans(prefix: string, docName: string, name: string)
    ensures docName != "" ==> (Matches(Target(prefix, docName), name) <==> name == docName)
    ensures docName == "" && prefix != "" ==>
              (Matches(Target(prefix, docName), name) <==> exists id :: name == prefix + id && '/' !in id)
  {
    if docName == "" && prefix != "" && HasPrefix(name, prefix) {
      assert name == prefix + name[|prefix|..];
    }
    forall id | name == prefix + id ensures HasPrefix(name, prefix) && name[|prefix|..] == id {}
  }

  function Matching<D>(t: Target, events: seq<Event<D>>): seq<Event<D>> {
    if events == [] then []
    else if Matches(t, events[0].name) then [events[0]] + Matching(t, events[1..])
    else Matching(t, events[1..])
  }

  // ---------- what the bounded log can answer ----------

  /** The last `capacity` events of a history, or all of it. */
  function Retained<D>(history: seq<Event<D>>, capacity: nat): seq<Event<D>> {
    if |history| <= capacity then history else history[|history| - capacity..]
  }

  function After<D>(events: seq<Event<D>>, seqNo: nat): seq<Event<D>> {
    if events == [] then []
    else if events[0].seqNo > seqNo then [events[0]] + After(events[1..], seqNo)
    else After(events[1..], seqNo)
  }

  /** The answer to a resume request: `None` asks the client to take a full snapshot. The addition is
    that of unsigned 64-bit integers, as a client may send any token. */
  function ChangesSince<D>(log: seq<Event<D>>, token: nat, t: Target): Option<seq<Event<D>>> {
    if log == [] then Some([])
    else if log[0].seqNo > (token + 1) % TWO64 then None
    else Some(Matching(t, After(log, token)))
  }

  lemma {:induction false} AfterSplits<D>(events: seq<Event<D>>, first: nat, token: nat)
    requires forall i :: 0 <= i < |events| ==> events[i].seqNo == first + i
    ensures After(events, token) ==
            if token + 1 <= first then events
            else if token + 1 - first <= |events| then events[token + 1 - first..] else []
  {
    if events != [] {
      AfterSplits(events[1..], first + 1, token);
    }
  }

  /** The events of a history are numbered from 1, in 64 bits. */
  ghost predicate Numbered<D>(history: seq<Event<D>>) {
    forall i :: 0 <= i < |history| ==> history[i].seqNo == (i + 1) % TWO64
  }

  lemma {:induction false} NumberedFrom<D>(history: seq<Event<D>>, capacity: nat)
    requires Numbered(history) && |history| < TWO64
    ensures var log := Retained(history, capacity);
            forall i :: 0 <= i < |log| ==> log[i].seqNo == |history| - |log| + 1 + i
  {
    var log := Retained(history, capacity);
    var skipped := |history| - |log|;
    forall i | 0 <= i < |log| ensures log[i].seqNo == skipped + 1 + i {
      assert log[i] == history[skipped + i];
      SmallModulo(skipped + i + 1);
    }
  }

  lemma SmallModulo(x: nat)
    requires x < TWO64
    ensures x % TWO64 == x
  {}

  lemma ChangesSinceNumbered<D>(log: seq<Event<D>>, first: nat, token: nat, t: Target)
    requires forall i :: 0 <= i < |log| ==> log[i].seqNo == first + i
    requires log != [] && 0 < first && token < TWO64
    ensures ChangesSince(log, token, t) ==
            if token + 1 == TWO64 || token + 1 < first then None
            else if token + 1 - first <= |log| then Some(Matching(t, log[token + 1 - first..]))
            else Some([])
  {
    AfterSplits(log, first, token);
    if token + 1 < TWO64 { SmallModulo(token + 1); }
  }

  /** For a token that names a past moment, the log refuses exactly when more than `capacity` events
    have followed it, and otherwise returns precisely the matching events since. A token from the
    future gets no events, except the largest token of all, whose successor wraps to 0. */
  lemma {:induction false} ChangesSinceExact<D>(history: seq<Event<D>>, capacity: nat, token: nat, t: Target)
    requires Numbered(history) && capacity > 0 && |history| < TWO64 && token < TWO64
    ensures ChangesSince(Retained(history, capacity), token, t) ==
            if token + 1 == TWO64 then (if history == [] then Some([]) else None)
            else if |history| < token then Some([])
            else if |history| - token > capacity then None
            else Some(Matching(t, history[token..]))
  {
    var log := Retained(history, capacity);
    var skipped := |history| - |log|;
    if log != [] {
      NumberedFrom(history, capacity);
      ChangesSinceNumbered(log, skipped + 1, token, t);
      if skipped <= token <= |history| {
        assert log[token - skipped..] == history[token..];
      }
    }
  }
}
