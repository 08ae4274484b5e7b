/** What becomes of one version of a secret, read off the events that name it, and what an access then
  yields. */
module SecretManagerFate {
  import opened Wrappers
  import opened Text
  import opened GoTime
  import opened SecretManagerState

  // ---------- one addition ----------

  /** What was added last is what "latest" yields. */
  lemma {:induction false} AddedIsAccessible(st: State, secret: string, payload: string, now: int)
    requires secret in st
    ensures Access(AddVersion(st, secret, payload, now), secret, "latest") == Ok(payload)
  {}

  /** An addition appends one version and leaves everything else alone. */
  lemma {:induction false} AddMeans(st: State, secret: string, payload: string, now: int)
    requires secret in st
    ensures var after := AddVersion(st, secret, payload, now);
            && after.Keys == st.Keys && (forall other :: other in st && other != secret ==> after[other] == st[other])
            && var s, t := st[secret], after[secret];
               && t.name == s.name && t.createTime == s.createTime && t.labels == s.labels
               && |t.versions| == |s.versions| + 1 && s.versions <= t.versions
               && var v := t.versions[|s.versions|];
                  && v.name == secret + "/versions/" + Numeral(s.nextVersion)
                  && v.state == Enabled && v.payload == Some(payload) && v.createTime == now && v.destroyTime == None
  {}

  /** A new secret has its labels and no versions, and leaves the others alone; a name that is taken changes
    nothing. */
  lemma {:induction false} CreateMeans(st: State, name: string, labels: map<string, string>, now: int)
    ensures var after := CreateSecret(st, name, labels, now);
            if name in st then after == st
            else
              && after.Keys == st.Keys + {name} && (forall other :: other in st ==> after[other] == st[other])
              && var s := after[name];
                 && s.name == name && s.labels == labels && s.createTime == now && s.versions == [] && s.nextVersion == 1
  {}

  /** Enabling, disabling and destroying touch one version, the one looked up; destroying notes the time and
    drops the payload. */
  lemma {:induction false} ChangeMeans(st: State, secret: string, id: string, to: VersionState, now: int)
    requires Lookup(st, secret, id).Some? && to != Destroyed
    ensures var k, s := Lookup(st, secret, id).value, st[secret];
            var changed, gone := SetState(st, secret, id, to), Destroy(st, secret, id, now);
            && changed.Keys == gone.Keys == st.Keys
            && (forall other :: other in st && other != secret ==> changed[other] == gone[other] == st[other])
            && changed[secret].(versions := []) == gone[secret].(versions := []) == s.(versions := [])
            && |changed[secret].versions| == |gone[secret].versions| == |s.versions|
            && (forall i :: 0 <= i < |s.versions| && i != k ==>
                  changed[secret].versions[i] == gone[secret].versions[i] == s.versions[i])
            && changed[secret].versions[k] == (if s.versions[k].state == Destroyed then s.versions[k]
                                           else s.versions[k].(state := to))
            && var v := gone[secret].versions[k];
               && v.state == Destroyed && v.payload == None && v.destroyTime == Some(now)
               && v.name == s.versions[k].name && v.createTime == s.versions[k].createTime
  {
    hide Resolve;
  }

  // ---------- the fate of a version ----------

  datatype Fate = Absent | Open | Shut | Gone

  /** Whether the secret exists, how many versions it has had added, and the fate of the one that is watched. */
  datatype Tracker = Tracker(live: bool, count: nat, fate: Fate)

  const Untouched: Tracker := Tracker(false, 0, Absent)

  /** The identifier names version `n` of `count`. */
  predicate Names(id: string, n: nat, count: nat) {
    1 <= n <= count && (id == Decimal(n) || (id == "latest" && n == count))
  }

  function Track(name: string, n: nat, tr: Tracker, e: Event): Tracker {
    match e
    case Create(s, _, _) => if s == name && !tr.live then Tracker(true, 0, Absent) else tr
    case Delete(s) => if s == name then Untouched else tr
    case Add(s, _, _) =>
      if s == name && tr.live then Tracker(true, tr.count + 1, if tr.count + 1 == n then Open else tr.fate) else tr
    case Enable(s, id) => if s == name && Names(id, n, tr.count) && tr.fate == Shut then tr.(fate := Open) else tr
    case Disable(s, id) => if s == name && Names(id, n, tr.count) && tr.fate == Open then tr.(fate := Shut) else tr
    case DestroyVersion(s, id, _) => if s == name && Names(id, n, tr.count) then tr.(fate := Gone) else tr
    case Restart => tr
  }

  function TrackAll(name: string, n: nat, tr: Tracker, es: seq<Event>): Tracker
    decreases es
  {
    if es == [] then tr else TrackAll(name, n, Track(name, n, tr, es[0]), es[1..])
  }

  predicate FateIs(s: Secret, n: nat, fate: Fate)
    requires n > 0
  {
    if n > |s.versions| then fate == Absent
    else
      match s.versions[n - 1].state
      case Enabled => fate == Open
      case Disabled => fate == Shut
      case Destroyed => fate == Gone
  }

  ghost predicate Follows(st: State, name: string, n: nat, tr: Tracker)
    requires n > 0
  {
    && (name in st <==> tr.live)
    && (tr.live ==> tr.count == |st[name].versions| && FateIs(st[name], n, tr.fate))
    && (!tr.live ==> tr == Untouched)
  }

  /** An identifier leads to a version within 32 bits exactly when it names it. */
  lemma {:induction false} LeadsToNamed(s: Secret, name: string, log: seq<string>, n: nat, id: string)
    requires SecretOk(s, name, log) && 1 <= n <= |log| && n <= MAX_INT32
    ensures Resolve(s, name, id) == Some(n - 1) <==> Names(id, n, |log|)
  {
    hide Decimal, Numeral, VersionName;
    ScanIsIndex(s, name, log, n - 1);
    NumeralOfWrapped(n);
    NotLatest(n);
    if id == "latest" { LatestIsLast(s, name, log); }
  }

  /** Setting the state of a version changes the fate of that one alone. */
  lemma {:induction false} SetFollows(st: State, log: Log, name: string, n: nat, tr: Tracker, e: Event)
    requires Logged(st, log) && 1 <= n <= MAX_INT32 && Follows(st, name, n, tr)
    requires (e.Enable? || e.Disable? || e.DestroyVersion?)
    ensures Follows(Step(st, e), name, n, Track(name, n, tr, e))
  {
    hide Resolve, VersionName, Decimal;
    if e.name == name && name in st {
      assert SecretOk(st[name], name, log[name]);
      if n <= |log[name]| { LeadsToNamed(st[name], name, log[name], n, e.id); }
    }
  }

  lemma {:induction false} RestartFollows(st: State, name: string, n: nat, tr: Tracker)
    requires n > 0 && Follows(st, name, n, tr)
    ensures Follows(Reload(st), name, n, tr)
  {}

  lemma {:induction false} StepFollows(st: State, log: Log, name: string, n: nat, tr: Tracker, e: Event)
    requires Logged(st, log) && 1 <= n <= MAX_INT32 && Follows(st, name, n, tr)
    ensures Follows(Step(st, e), name, n, Track(name, n, tr, e))
  {
    match e {
      case Create(_, _, _) =>
      case Delete(_) =>
      case Add(s, payload, now) => if s in st { AddMeans(st, s, payload, now); }
      case Restart => RestartFollows(st, name, n, tr);
      case _ => SetFollows(st, log, name, n, tr, e);
    }
    hide Logged, Lookup, AddVersion, LoadSecret, SaveSecret;
  }

  lemma {:induction false} RunFollows(st: State, log: Log, name: string, n: nat, tr: Tracker, es: seq<Event>)
    requires Logged(st, log) && 1 <= n <= MAX_INT32 && Follows(st, name, n, tr)
    ensures Logged(Run(st, es), RecordAll(log, st, es)) && Follows(Run(st, es), name, n, TrackAll(name, n, tr, es))
    decreases es
  {
    hide Logged, Follows, Step, Record, Track;
    if es != [] {
      StepFollows(st, log, name, n, tr, es[0]);
      StepKeepsLog(st, log, es[0]);
      RunFollows(Step(st, es[0]), Record(log, st, es[0]), name, n, Track(name, n, tr, es[0]), es[1..]);
    }
  }

  /** Over any run, restarts included, what an access to the n-th version yields can be read off the events:
    it is not found before it is added, yields what was added unless it was destroyed or the last that
    happened to it was being disabled, and is refused then. */
  lemma {:induction false} AccessIsDecidedByEvents(es: seq<Event>, name: string, n: nat)
    requires 1 <= n <= MAX_INT32
    ensures var st, log := Run(map[], es), RecordAll(map[], map[], es);
            match TrackAll(name, n, Untouched, es).fate
            case Absent => Access(st, name, Decimal(n)) == NotFound
            case Open =>
              name in log && n <= |log[name]| && Access(st, name, Decimal(n)) == Ok(log[name][n - 1])
            case _ => Access(st, name, Decimal(n)) == FailedPrecondition
  {
    hide Decimal, VersionName, Run, RecordAll, TrackAll;
    var st, log := Run(map[], es), RecordAll(map[], map[], es);
    RunFollows(map[], map[], name, n, Untouched, es);
    if name in st {
      assert SecretOk(st[name], name, log[name]);
      if n <= |log[name]| {
        ScanIsIndex(st[name], name, log[name], n - 1);
        assert VersionOk(st[name].versions[n - 1], name, n - 1, log[name][n - 1]);
      } else {
        BeyondTheLast(st[name], name, log[name], n);
      }
    }
  }

  lemma {:induction false} BeyondTheLast(s: Secret, name: string, log: seq<string>, n: nat)
    requires SecretOk(s, name, log) && |log| < n <= MAX_INT32
    ensures Resolve(s, name, Decimal(n)) == None
  {
    hide Decimal, Numeral, VersionName;
    NotLatest(n);
    forall i | 0 <= i < |log| ensures s.versions[i].name != VersionName(name, Decimal(n)) {
      assert VersionOk(s.versions[i], name, i, log[i]);
      NumeralOfWrapped(i + 1);
      SameID(name, Numeral(Wrap32(i + 1)), Decimal(n));
      if Decimal(i + 1) == Decimal(n) { DecimalInjective(i + 1, n); }
    }
  }

  // ---------- restarts ----------

  /** A restart gives the same state back exactly when no version carries an empty payload or was destroyed
    at time zero, which the file does not tell from none; names, times, labels, states, numbers and bytes
    it always keeps. */
  lemma {:induction false} ReloadIsIdentityExactly(st: State)
    ensures Reload(st) == st <==>
            forall name, i :: name in st && 0 <= i < |st[name].versions| ==>
              st[name].versions[i].payload != Some("") && st[name].versions[i].destroyTime != Some(0)
    ensures Reload(st).Keys == st.Keys
    ensures forall name :: name in st ==> SameBut(st[name], Reload(st)[name])
  {
    forall name | name in st ensures SameBut(st[name], Reload(st)[name]) {}
    if Reload(st) == st {
      forall name, i | name in st && 0 <= i < |st[name].versions|
        ensures st[name].versions[i].payload != Some("") && st[name].versions[i].destroyTime != Some(0)
      {
        assert LoadVersion(SaveVersion(st[name].versions[i])) == Reload(st)[name].versions[i];
      }
    }
    if forall name, i :: name in st && 0 <= i < |st[name].versions| ==>
         st[name].versions[i].payload != Some("") && st[name].versions[i].destroyTime != Some(0) {
      forall name | name in st ensures Reload(st)[name] == st[name] {
        assert Reload(st)[name].versions == st[name].versions;
      }
    }
  }

  ghost predicate SameBut(s: Secret, t: Secret) {
    && t.name == s.name && t.createTime == s.createTime && t.labels == s.labels && t.nextVersion == s.nextVersion
    && |t.versions| == |s.versions|
    && forall i :: 0 <= i < |s.versions| ==>
         var v, w := s.versions[i], t.versions[i];
         && w.name == v.name && w.createTime == v.createTime && w.state == v.state && Bytes(w.payload) == Bytes(v.payload)
         && (w.destroyTime == v.destroyTime || v.destroyTime == Some(0))
  }
}
