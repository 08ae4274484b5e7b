/** The Secret Manager emulator as a state machine over values: secrets and their version logs, how a
  version is looked up, and what holds over whole runs, restarts included. Times are in nanoseconds. */
module SecretManagerState {
  import opened Wrappers
  import opened Text
  import opened GoTime

  datatype VersionState = Enabled | Disabled | Destroyed

  datatype Version = Version(name: string, createTime: int, state: VersionState, destroyTime: Option<int>,
                             payload: Option<string>)

  datatype Secret = Secret(name: string, createTime: int, labels: map<string, string>, versions: seq<Version>,
                           nextVersion: Int32)

  /** Secrets by name. */
  type State = map<string, Secret>

  // ---------- looking a version up ----------

  /** `fmt.Sprintf("%d", n)`. */
  function Numeral(n: int): string {
    if n < 0 then "-" + Decimal(-n) else Decimal(n)
  }

  function VersionName(secret: string, id: string): string {
    secret + "/versions/" + id
  }

  /** The first of the versions from `i` on that has the name. */
  function FindFrom(versions: seq<Version>, name: string, i: nat): (k: Option<nat>)
    requires i <= |versions|
    ensures k.Some? ==> i <= k.value < |versions| && versions[k.value].name == name
    ensures k.Some? ==> forall j :: i <= j < k.value ==> versions[j].name != name
    ensures k.None? ==> forall j :: i <= j < |versions| ==> versions[j].name != name
    decreases |versions| - i
  {
    if i == |versions| then None
    else if versions[i].name == name then Some(i)
    else FindFrom(versions, name, i + 1)
  }

  /** The index of a version given by number, or as "latest". */
  function Resolve(s: Secret, secret: string, id: string): (k: Option<nat>)
    ensures k.Some? ==> k.value < |s.versions|
  {
    if s.versions == [] then None
    else if id == "latest" then Some(|s.versions| - 1)
    else FindFrom(s.versions, VersionName(secret, id), 0)
  }

  function Lookup(st: State, secret: string, id: string): Option<nat> {
    if secret in st then Resolve(st[secret], secret, id) else None
  }

  function Bytes(payload: Option<string>): string {
    if payload.Some? then payload.value else ""
  }

  function Access(st: State, secret: string, id: string): Result<string> {
    var k := Lookup(st, secret, id);
    if k.None? then NotFound
    else if st[secret].versions[k.value].state != Enabled then FailedPrecondition
    else Ok(Bytes(st[secret].versions[k.value].payload))
  }

  // ---------- operations ----------

  function SecretName(parent: string, id: string): string {
    parent + "/secrets/" + id
  }

  function CreateSecret(st: State, name: string, labels: map<string, string>, now: int): State {
    if name in st then st else st[name := Secret(name, now, labels, [], 1)]
  }

  function NewVersion(s: Secret, secret: string, payload: string, now: int): Version {
    Version(VersionName(secret, Numeral(s.nextVersion)), now, Enabled, None, Some(payload))
  }

  function AddVersion(st: State, secret: string, payload: string, now: int): State {
    if secret !in st then st
    else
      var s := st[secret];
      st[secret := s.(versions := s.versions + [NewVersion(s, secret, payload, now)],
                      nextVersion := Wrap32(s.nextVersion + 1))]
  }

  function WithVersion(st: State, secret: string, i: nat, v: Version): State
    requires secret in st && i < |st[secret].versions|
  {
    st[secret := st[secret].(versions := st[secret].versions[i := v])]
  }

  /** Enables or disables a version that was not destroyed. */
  function SetState(st: State, secret: string, id: string, to: VersionState): State {
    var k := Lookup(st, secret, id);
    if k.None? || st[secret].versions[k.value].state == Destroyed then st
    else WithVersion(st, secret, k.value, st[secret].versions[k.value].(state := to))
  }

  function Destroy(st: State, secret: string, id: string, now: int): State {
    var k := Lookup(st, secret, id);
    if k.None? then st
    else WithVersion(st, secret, k.value,
                     st[secret].versions[k.value].(state := Destroyed, destroyTime := Some(now), payload := None))
  }

  // ---------- persistence ----------

  datatype PersistedVersion = PersistedVersion(name: string, createTime: int, state: VersionState, destroyTime: int,
                                               payload: string)

  datatype PersistedSecret = PersistedSecret(name: string, createTime: int, labels: map<string, string>,
                                             versions: seq<PersistedVersion>, nextVersion: Int32)

  function SaveVersion(v: Version): PersistedVersion {
    PersistedVersion(v.name, v.createTime, v.state, if v.destroyTime.Some? then v.destroyTime.value else 0, Bytes(v.payload))
  }

  function LoadVersion(p: PersistedVersion): Version {
    Version(p.name, p.createTime, p.state, if p.destroyTime != 0 then Some(p.destroyTime) else None,
            if p.payload != "" then Some(p.payload) else None)
  }

  function SaveSecret(s: Secret): PersistedSecret {
    PersistedSecret(s.name, s.createTime, s.labels,
                    seq(|s.versions|, i requires 0 <= i < |s.versions| => SaveVersion(s.versions[i])), s.nextVersion)
  }

  function LoadSecret(p: PersistedSecret): Secret {
    Secret(p.name, p.createTime, p.labels,
           seq(|p.versions|, i requires 0 <= i < |p.versions| => LoadVersion(p.versions[i])), p.nextVersion)
  }

  /** The state after a restart. */
  function Reload(st: State): State {
    map name | name in st :: LoadSecret(SaveSecret(st[name]))
  }

  // ---------- runs ----------

  datatype Event =
    | Create(name: string, labels: map<string, string>, now: int)
    | Delete(name: string)
    | Add(name: string, payload: string, now: int)
    | Enable(name: string, id: string)
    | Disable(name: string, id: string)
    | DestroyVersion(name: string, id: string, now: int)
    | Restart

  function Step(st: State, e: Event): State {
    match e
    case Create(name, labels, now) => CreateSecret(st, name, labels, now)
    case Delete(name) => st - {name}
    case Add(name, payload, now) => AddVersion(st, name, payload, now)
    case Enable(name, id) => SetState(st, name, id, Enabled)
    case Disable(name, id) => SetState(st, name, id, Disabled)
    case DestroyVersion(name, id, now) => Destroy(st, name, id, now)
    case Restart => Reload(st)
  }

  function Run(st: State, es: seq<Event>): State
    decreases es
  {
    if es == [] then st else Run(Step(st, es[0]), es[1..])
  }

  // ---------- the log ----------

  /** The payloads added to each secret since it was created. */
  type Log = map<string, seq<string>>

  function Record(log: Log, st: State, e: Event): Log {
    match e
    case Create(name, _, _) => if name in st then log else log[name := []]
    case Delete(name) => log - {name}
    case Add(name, payload, _) => if name in log then log[name := log[name] + [payload]] else log
    case _ => log
  }

  function RecordAll(log: Log, st: State, es: seq<Event>): Log
    decreases es
  {
    if es == [] then log else RecordAll(Record(log, st, es[0]), Step(st, es[0]), es[1..])
  }

  /** A destroyed version has no payload, and any other has the bytes first added. */
  predicate VersionOk(v: Version, secret: string, i: nat, payload: string) {
    && v.name == VersionName(secret, Numeral(Wrap32(i + 1)))
    && if v.state == Destroyed then v.payload == None else Bytes(v.payload) == payload
  }

  /** The versions are the payloads of the log, in order, numbered from 1. */
  ghost predicate SecretOk(s: Secret, name: string, log: seq<string>) {
    && s.name == name && |s.versions| == |log| && s.nextVersion == Wrap32(|log| + 1)
    && forall i :: 0 <= i < |log| ==> VersionOk(s.versions[i], name, i, log[i])
  }

  ghost predicate Logged(st: State, log: Log) {
    st.Keys == log.Keys && forall name :: name in st ==> SecretOk(st[name], name, log[name])
  }

  lemma Wrap32Next(n: int)
    ensures Wrap32(Wrap32(n) + 1) == Wrap32(n + 1)
  {}

  lemma AddOk(s: Secret, name: string, log: seq<string>, payload: string, now: int)
    requires SecretOk(s, name, log)
    ensures SecretOk(AddVersion(map[name := s], name, payload, now)[name], name, log + [payload])
  {
    Wrap32Next(|log| + 1);
    hide VersionName, Numeral;
  }

  lemma ReloadOk(s: Secret, name: string, log: seq<string>)
    requires SecretOk(s, name, log)
    ensures SecretOk(LoadSecret(SaveSecret(s)), name, log)
  {
    hide VersionName, Numeral;
  }

  lemma ChangeOk(s: Secret, name: string, log: seq<string>, i: nat, v: Version)
    requires SecretOk(s, name, log) && i < |log| && VersionOk(v, name, i, log[i])
    ensures SecretOk(s.(versions := s.versions[i := v]), name, log)
  {
    hide VersionOk;
  }

  lemma StepKeepsLog(st: State, log: Log, e: Event)
    requires Logged(st, log)
    ensures Logged(Step(st, e), Record(log, st, e))
  {
    hide SecretOk, LoadSecret, SaveSecret, VersionName, Numeral, Resolve;
    match e {
      case Create(name, labels, now) => NewSecretOk(name, labels, now);
      case Delete(_) =>
      case Add(name, payload, now) => if name in st { AddOk(st[name], name, log[name], payload, now); }
      case Enable(name, id) => ChangeKeepsLog(st, log, name, id, Enabled, 0);
      case Disable(name, id) => ChangeKeepsLog(st, log, name, id, Disabled, 0);
      case DestroyVersion(name, id, now) => ChangeKeepsLog(st, log, name, id, Destroyed, now);
      case Restart =>
        forall name | name in st ensures SecretOk(LoadSecret(SaveSecret(st[name])), name, log[name]) {
          ReloadOk(st[name], name, log[name]);
        }
    }
  }

  lemma NewSecretOk(name: string, labels: map<string, string>, now: int)
    ensures SecretOk(Secret(name, now, labels, [], 1), name, [])
  {}

  lemma ChangeKeepsLog(st: State, log: Log, name: string, id: string, to: VersionState, now: int)
    requires Logged(st, log)
    ensures Logged(if to == Destroyed then Destroy(st, name, id, now) else SetState(st, name, id, to), log)
  {
    hide VersionName, Numeral;
    var k := Lookup(st, name, id);
    if k.Some? {
      var v := st[name].versions[k.value];
      assert SecretOk(st[name], name, log[name]);
      if to == Destroyed {
        ChangeOk(st[name], name, log[name], k.value, v.(state := Destroyed, destroyTime := Some(now), payload := None));
      } else if v.state != Destroyed {
        ChangeOk(st[name], name, log[name], k.value, v.(state := to));
      }
    }
  }

  /** Over any run, restarts included, the versions of a secret are the payloads added to it, in order. */
  lemma {:induction false} RunKeepsLog(st: State, log: Log, es: seq<Event>)
    requires Logged(st, log)
    ensures Logged(Run(st, es), RecordAll(log, st, es))
    decreases es
  {
    if es != [] {
      StepKeepsLog(st, log, es[0]);
      RunKeepsLog(Step(st, es[0]), Record(log, st, es[0]), es[1..]);
    }
  }

  // ---------- the scan agrees with the index ----------

  lemma NumeralOfWrapped(n: nat)
    requires n > 0
    ensures Numeral(Wrap32(n)) == Decimal(n) <==> n <= MAX_INT32
  {
    if n > MAX_INT32 {
      WrappedDiffers(n);
      var r := Wrap32(n);
      if r >= 0 && Decimal(r) == Decimal(n) { DecimalInjective(r, n); }
      if r < 0 { assert Numeral(r)[0] == '-' && Decimal(n)[0] in Decimal(n); }
    }
  }

  lemma WrappedDiffers(n: nat)
    requires n > MAX_INT32
    ensures Wrap32(n) != n
  {}

  /** Looking up the number of a version finds that version, exactly as long as the number fits into 32
    bits; and what a lookup finds has the number it was asked for. */
  lemma {:induction false} ScanIsIndex(s: Secret, name: string, log: seq<string>, i: nat)
    requires SecretOk(s, name, log) && i < |log|
    ensures Resolve(s, name, Decimal(i + 1)) == Some(i) <==> i + 1 <= MAX_INT32
    ensures forall id :: id != "latest" && Resolve(s, name, id) == Some(i) ==> id == Numeral(Wrap32(i + 1))
  {
    hide VersionName, Decimal, Numeral;
    var full := VersionName(name, Decimal(i + 1));
    NotLatest(i + 1);
    NumeralOfWrapped(i + 1);
    assert VersionOk(s.versions[i], name, i, log[i]);
    SameID(name, Numeral(Wrap32(i + 1)), Decimal(i + 1));
    forall j | 0 <= j < i && i < MAX_INT32 ensures s.versions[j].name != full {
      assert VersionOk(s.versions[j], name, j, log[j]);
      NumeralOfWrapped(j + 1);
      SameID(name, Decimal(j + 1), Decimal(i + 1));
      if Decimal(j + 1) == Decimal(i + 1) { DecimalInjective(j + 1, i + 1); }
    }
    forall id | id != "latest" && Resolve(s, name, id) == Some(i) ensures id == Numeral(Wrap32(i + 1)) {
      SameID(name, Numeral(Wrap32(i + 1)), id);
    }
  }

  lemma SameID(name: string, a: string, b: string)
    ensures VersionName(name, a) == VersionName(name, b) <==> a == b
  {
    SameSuffix(name + "/versions/", a, b);
  }

  lemma SameSuffix(p: string, a: string, b: string)
    ensures p + a == p + b <==> a == b
  {
    assert (p + a)[|p|..] == a && (p + b)[|p|..] == b;
  }

  /** "latest" is the version added last; looking up the length of the log finds it too, as long as that
    fits into 32 bits. */
  lemma {:induction false} LatestIsLast(s: Secret, name: string, log: seq<string>)
    requires SecretOk(s, name, log) && log != []
    ensures Resolve(s, name, "latest") == Some(|log| - 1)
    ensures Resolve(s, name, Decimal(|log|)) == Resolve(s, name, "latest") <==> |log| <= MAX_INT32
  {
    hide Decimal, VersionName, Numeral, VersionOk;
    ScanIsIndex(s, name, log, |log| - 1);
  }

  lemma NotLatest(n: nat)
    ensures Decimal(n) != "latest"
  {
    assert Decimal(n)[0] in Decimal(n) && "latest"[0] == 'l';
  }

  /** Accessing the n-th version yields what was added n-th, unless it is disabled or destroyed. */
  lemma {:induction false} AccessYieldsWhatWasAdded(es: seq<Event>, name: string, n: nat)
    requires var log := RecordAll(map[], map[], es); name in log && 1 <= n <= |log[name]| && n <= MAX_INT32
    ensures var st, log := Run(map[], es), RecordAll(map[], map[], es);
            && name in st && n <= |st[name].versions|
            && Access(st, name, Decimal(n)) ==
               if st[name].versions[n - 1].state == Enabled then Ok(log[name][n - 1]) else FailedPrecondition
  {
    RunKeepsLog(map[], map[], es);
    var st, log := Run(map[], es), RecordAll(map[], map[], es);
    ScanIsIndex(st[name], name, log[name], n - 1);
    assert VersionOk(st[name].versions[n - 1], name, n - 1, log[name][n - 1]);
  }

  /** Disabling a version bars access to it, and enabling it again restores the store. */
  lemma {:induction false} EnableUndoesDisable(st: State, secret: string, id: string)
    requires Access(st, secret, id).Ok?
    ensures Access(SetState(st, secret, id, Disabled), secret, id) == FailedPrecondition
    ensures SetState(SetState(st, secret, id, Disabled), secret, id, Enabled) == st
  {
    hide VersionName;
    var k := Lookup(st, secret, id).value;
    var s := st[secret];
    var disabled := s.(versions := s.versions[k := s.versions[k].(state := Disabled)]);
    SameFind(s.versions, disabled.versions, VersionName(secret, id));
    assert disabled.versions[k := s.versions[k]] == s.versions;
  }

  /** Once destroyed, a version cannot be accessed, enabled or disabled. */
  lemma {:induction false} DestroyedIsFinal(st: State, secret: string, id: string, now: int)
    requires Lookup(st, secret, id).Some?
    ensures var gone := Destroy(st, secret, id, now);
            && Access(gone, secret, id) == FailedPrecondition
            && forall to :: SetState(gone, secret, id, to) == gone
  {
    hide VersionName;
    var k := Lookup(st, secret, id).value;
    SameFind(st[secret].versions, Destroy(st, secret, id, now)[secret].versions, VersionName(secret, id));
  }

  // ---------- append-only ----------

  /** The log of a secret only grows: no version changes its name or creation time, and a destroyed version
    stays destroyed, without a payload. */
  ghost predicate Extends(before: Secret, after: Secret) {
    && |before.versions| <= |after.versions|
    && forall i :: 0 <= i < |before.versions| ==> VersionExtends(before.versions[i], after.versions[i])
  }

  predicate VersionExtends(v: Version, w: Version) {
    && w.name == v.name && w.createTime == v.createTime
    && (v.state == Destroyed && v.payload == None ==> w.state == Destroyed && w.payload == None)
    && (w.payload != None ==> w.payload == v.payload)
  }

  lemma StepExtends(st: State, e: Event, name: string)
    requires name in st && e != Delete(name)
    ensures name in Step(st, e) && Extends(st[name], Step(st, e)[name])
  {
    hide VersionName, Numeral, Resolve;
  }

  lemma ExtendsTransitive(a: Secret, b: Secret, c: Secret)
    requires Extends(a, b) && Extends(b, c)
    ensures Extends(a, c)
  {
    forall i | 0 <= i < |a.versions| ensures VersionExtends(a.versions[i], c.versions[i]) {
      assert VersionExtends(a.versions[i], b.versions[i]) && VersionExtends(b.versions[i], c.versions[i]);
    }
  }

  lemma {:induction false} RunExtends(st: State, es: seq<Event>, name: string)
    requires name in st && Delete(name) !in es
    ensures name in Run(st, es) && Extends(st[name], Run(st, es)[name])
    decreases es
  {
    if es == [] {
      assert forall v: Version {:trigger VersionExtends(v, v)} :: VersionExtends(v, v);
    } else {
      assert es[0] in es;
      StepExtends(st, es[0], name);
      RunExtends(Step(st, es[0]), es[1..], name);
      ExtendsTransitive(st[name], Step(st, es[0])[name], Run(st, es)[name]);
    }
  }

  /** A restart is not seen through accesses. */
  lemma {:induction false} RestartIsInvisible(st: State, secret: string, id: string)
    ensures Access(Reload(st), secret, id) == Access(st, secret, id)
  {
    if secret in st {
      SameFind(st[secret].versions, Reload(st)[secret].versions, VersionName(secret, id));
    }
  }

  lemma SameFind(vs: seq<Version>, ws: seq<Version>, name: string)
    requires |vs| == |ws| && forall i :: 0 <= i < |vs| ==> vs[i].name == ws[i].name
    ensures FindFrom(vs, name, 0) == FindFrom(ws, name, 0)
  {
    var j, k := FindFrom(vs, name, 0), FindFrom(ws, name, 0);
    assert j.Some? ==> vs[j.value].name == ws[j.value].name;
    assert k.Some? ==> vs[k.value].name == ws[k.value].name;
  }

  /** A second restart changes nothing more. */
  lemma {:induction false} ReloadIdempotent(st: State)
    ensures Reload(Reload(st)) == Reload(st)
  {
    forall name | name in st ensures LoadSecret(SaveSecret(Reload(st)[name])) == Reload(st)[name] {
      var s := Reload(st)[name];
      var t := LoadSecret(SaveSecret(s));
      forall i | 0 <= i < |s.versions| ensures t.versions[i] == s.versions[i] {
        assert s.versions[i] == LoadVersion(SaveVersion(st[name].versions[i]));
      }
      assert t.versions == s.versions;
    }
  }
}
