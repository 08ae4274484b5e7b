/** The Secret Manager store on the heap: secrets whose version lists grow in place, and versions that are
  enabled, disabled and destroyed in place. Every method is proved to do what SecretManagerState says of
  its event. */
module SecretManagerStore {
  import opened Wrappers
  import opened Text
  import opened GoTime
  import opened SecretManagerState
  import opened SecretManagerFate

  class VersionData {
    /** The secret the version belongs to, and its place in the list. */
    ghost const secret: string
    ghost const index: nat
    const name: string
    const createTime: int
    var state: VersionState
    var destroyTime: Option<int>
    var payload: Option<string>

    constructor (ghost secret: string, ghost index: nat, v: Version)
      ensures this.secret == secret && this.index == index && Value() == v
    {
      this.secret, this.index := secret, index;
      name, createTime, state, destroyTime, payload := v.name, v.createTime, v.state, v.destroyTime, v.payload;
    }

    function Value(): Version
      reads this
    {
      Version(name, createTime, state, destroyTime, payload)
    }
  }

  class SecretData {
    const name: string
    const createTime: int
    const labels: map<string, string>
    var versions: seq<VersionData>
    var nextVersion: Int32

    constructor (name: string, createTime: int, labels: map<string, string>, nextVersion: Int32)
      ensures this.name == name && this.createTime == createTime && this.labels == labels
      ensures this.nextVersion == nextVersion && versions == []
    {
      this.name, this.createTime, this.labels, this.nextVersion := name, createTime, labels, nextVersion;
      versions := [];
    }
  }

  // ---------- values on the heap ----------

  /** The version data `vds`, which are among `cells`, are the versions `vs` of the secret. */
  ghost predicate VersionsAre(vds: seq<VersionData>, cells: set<VersionData>, secret: string, vs: seq<Version>)
    reads cells
  {
    && |vds| == |vs|
    && forall i :: 0 <= i < |vds| ==>
         vds[i] in cells && vds[i].secret == secret && vds[i].index == i && vds[i].Value() == vs[i]
  }

  ghost predicate SecretIs(sd: SecretData, cells: set<VersionData>, secret: string, s: Secret)
    reads sd, cells
  {
    && sd.name == secret == s.name && sd.createTime == s.createTime && sd.labels == s.labels
    && sd.nextVersion == s.nextVersion && VersionsAre(sd.versions, cells, secret, s.versions)
  }

  ghost predicate SecretsAre(secrets: map<string, SecretData>, owned: set<SecretData>, cells: set<VersionData>,
                             st: State)
    reads owned, cells
  {
    && secrets.Keys == st.Keys
    && forall name :: name in secrets ==> secrets[name] in owned && SecretIs(secrets[name], cells, name, st[name])
  }

  ghost function OtherSecrets(owned: set<SecretData>, secret: string): set<SecretData> {
    set sd | sd in owned && sd.name != secret
  }

  /** The secrets but for one. */
  ghost predicate OthersAre(secrets: map<string, SecretData>, owned: set<SecretData>, cells: set<VersionData>,
                            st: State,
                            secret: string)
    reads OtherSecrets(owned, secret), cells
  {
    && secrets.Keys == st.Keys
    && forall name :: name in secrets && name != secret ==>
         secrets[name] in OtherSecrets(owned, secret) && SecretIs(secrets[name], cells, name, st[name])
  }

  lemma Apart(secrets: map<string, SecretData>, owned: set<SecretData>, cells: set<VersionData>, st: State,
              secret: string)
    requires SecretsAre(secrets, owned, cells, st) && secret in st
    ensures secret in secrets && secrets[secret] in owned && secrets[secret] !in OtherSecrets(owned, secret)
    ensures SecretIs(secrets[secret], cells, secret, st[secret]) && secrets[secret].nextVersion == st[secret].nextVersion
    ensures OthersAre(secrets, owned, cells, st, secret)
  {
    hide VersionsAre;
  }

  lemma MoreCells(secrets: map<string, SecretData>, owned: set<SecretData>, cells: set<VersionData>, st: State,
                  secret: string,
                  vd: VersionData)
    requires OthersAre(secrets, owned, cells, st, secret)
    ensures OthersAre(secrets, owned, cells + {vd}, st, secret)
  {}

  lemma Together(secrets: map<string, SecretData>, owned: set<SecretData>, cells: set<VersionData>, st: State,
                 secret: string,
                 s: Secret)
    requires OthersAre(secrets, owned, cells, st, secret) && secret in secrets
    requires secrets[secret] in owned && SecretIs(secrets[secret], cells, secret, s)
    ensures SecretsAre(secrets, owned, cells, st[secret := s])
  {
    hide VersionsAre;
  }

  // ---------- records on disk ----------

  /** The file lists the secrets, in no particular order; no file stands for no secrets. */
  ghost predicate OnDisk(file: Option<seq<PersistedSecret>>, st: State) {
    if file.None? then st == map[]
    else
      && (forall p :: p in file.value ==> p.name in st && p == SaveSecret(st[p.name]))
      && forall name :: name in st ==> st[name].name == name && SaveSecret(st[name]) in file.value
  }

  class Store {
    var secrets: map<string, SecretData>
    const persistent: bool
    var file: Option<seq<PersistedSecret>>

    ghost var st: State
    /** Every secret and every version that ever was. */
    ghost var owned: set<SecretData>
    ghost var cells: set<VersionData>

    ghost predicate Holds(s: State)
      reads this, owned, cells
    {
      SecretsAre(secrets, owned, cells, s)
    }

    ghost predicate Valid()
      reads this, owned, cells
    {
      Holds(st) && (persistent ==> OnDisk(file, st))
    }

    // ----- looking up -----

    /** The version given by number, or as "latest". */
    method ResolveVersion(secret: string, id: string) returns (vd: Option<VersionData>)
      requires Valid()
      ensures vd.Some? <==> Lookup(st, secret, id).Some?
      ensures vd.Some? ==> var i := Lookup(st, secret, id).value;
                           && secret in secrets && i < |secrets[secret].versions| && vd.value == secrets[secret].versions[i]
                           && vd.value in cells && vd.value.Value() == st[secret].versions[i]
    {
      if secret !in secrets { return None; }
      var sd := secrets[secret];
      assert SecretIs(sd, cells, secret, st[secret]);
      if |sd.versions| == 0 { return None; }
      if id == "latest" { return Some(sd.versions[|sd.versions| - 1]); }
      var fullName := VersionName(secret, id);
      hide VersionName;
      for i := 0 to |sd.versions|
        invariant FindFrom(st[secret].versions, fullName, i) == FindFrom(st[secret].versions, fullName, 0)
      {
        assert sd.versions[i].Value() == st[secret].versions[i];
        if sd.versions[i].name == fullName { return Some(sd.versions[i]); }
      }
      vd := None;
    }

    /** The payload of an enabled version. */
    method AccessSecretVersion(secret: string, id: string) returns (r: Result<string>)
      requires Valid()
      ensures r == Access(st, secret, id)
    {
      var vd := ResolveVersion(secret, id);
      if vd.None? { return NotFound; }
      match vd.value.state {
        case Disabled => return FailedPrecondition;
        case Destroyed => return FailedPrecondition;
        case Enabled =>
      }
      r := Ok(Bytes(vd.value.payload));
    }

    // ----- persistence -----

    /** Writes the secrets to disk, if the store is persistent. This concludes an event that has brought the
      heap to the state `next`. */
    method Persist(ghost next: State)
      requires Holds(next)
      modifies this`file, this`st
      ensures st == next
      ensures Valid()
    {
      hide SecretsAre, SaveSecret;
      if persistent {
        var ps := ListSecrets(next);
        file := Some(ps);
      }
      st := next;
    }

    method ListSecrets(ghost next: State) returns (ps: seq<PersistedSecret>)
      requires Holds(next)
      ensures OnDisk(Some(ps), next)
    {
      hide SaveSecret, VersionsAre;
      ps := [];
      var todo := secrets.Keys;
      while todo != {}
        invariant todo <= secrets.Keys
        invariant forall p :: p in ps ==> p.name in next && p == SaveSecret(next[p.name])
        invariant forall name :: name in next && name !in todo ==> SaveSecret(next[name]) in ps
        decreases |todo|
      {
        var name := AnyOf(todo);
        var p := Record(secrets[name], name, next[name]);
        ps, todo := ps + [p], todo - {name};
      }
    }

    method Record(sd: SecretData, ghost name: string, ghost s: Secret) returns (p: PersistedSecret)
      requires SecretIs(sd, cells, name, s)
      ensures p == SaveSecret(s) && p.name == name
    {
      var versions := [];
      for i := 0 to |sd.versions|
        invariant |versions| == i && forall j :: 0 <= j < i ==> versions[j] == SaveVersion(s.versions[j])
      {
        var vd := sd.versions[i];
        assert vd.Value() == s.versions[i];
        var destroyTime := 0;
        if vd.destroyTime.Some? { destroyTime := vd.destroyTime.value; }
        var payload := "";
        if vd.payload.Some? { payload := vd.payload.value; }
        versions := versions + [PersistedVersion(vd.name, vd.createTime, vd.state, destroyTime, payload)];
      }
      p := PersistedSecret(sd.name, sd.createTime, sd.labels, versions, sd.nextVersion);
      assert versions == SaveSecret(s).versions;
    }

    /** Opens a store. A persistent one loads what an earlier process, last in the state `before`, left on
      disk. */
    constructor (persistent: bool, file: Option<seq<PersistedSecret>>, ghost before: State)
      requires persistent ==> OnDisk(file, before)
      ensures this.persistent == persistent && fresh(owned) && fresh(cells)
      ensures st == if persistent then Reload(before) else map[]
      ensures Valid()
    {
      hide Reload, OnDisk, SecretIs;
      secrets, owned, cells, st := map[], {}, {}, map[];
      this.persistent, this.file := persistent, file;
      new;
      if persistent {
        ReloadedOnDisk(file, before);
        Load(before);
        st := Reload(before);
      }
    }

    method Load(ghost before: State)
      requires Holds(map[]) && OnDisk(file, before)
      modifies this`secrets, this`owned, this`cells
      ensures forall s :: s in owned ==> s in old(owned) || fresh(s)
      ensures forall v :: v in cells ==> v in old(cells) || fresh(v)
      ensures Holds(Reload(before))
    {
      hide SecretsAre, SecretIs, LoadSecret, SaveSecret;
      if file.None? {
        assert Reload(before) == map[];
        return;
      }
      ghost var loaded: State := map[];
      for i := 0 to |file.value|
        invariant file == old(file)
        invariant forall s :: s in owned ==> s in old(owned) || fresh(s)
        invariant forall v :: v in cells ==> v in old(cells) || fresh(v)
        invariant (forall j :: 0 <= j < i ==> file.value[j].name in loaded)
        invariant forall name :: name in loaded ==> name in before && loaded[name] == LoadSecret(SaveSecret(before[name]))
        invariant Holds(loaded)
      {
        var p := file.value[i];
        assert p in file.value;
        LoadOne(p, loaded);
        loaded := loaded[p.name := LoadSecret(p)];
      }
      AllLoaded(file.value, before, loaded);
    }

    static lemma AllLoaded(ps: seq<PersistedSecret>, before: State, loaded: State)
      requires OnDisk(Some(ps), before) && forall j :: 0 <= j < |ps| ==> ps[j].name in loaded
      requires forall name :: name in loaded ==> name in before && loaded[name] == LoadSecret(SaveSecret(before[name]))
      ensures loaded == Reload(before)
    {
      hide LoadSecret;
      forall name | name in before ensures name in loaded {
        var j :| 0 <= j < |ps| && ps[j] == SaveSecret(before[name]);
        assert ps[j].name == name;
      }
    }

    method LoadOne(p: PersistedSecret, ghost loaded: State)
      requires Holds(loaded)
      modifies this`secrets, this`owned, this`cells
      ensures forall s :: s in owned ==> s in old(owned) || fresh(s)
      ensures forall v :: v in cells ==> v in old(cells) || fresh(v)
      ensures Holds(loaded[p.name := LoadSecret(p)])
    {
      hide SecretsAre, SecretIs, LoadSecret;
      var sd, vds := Restore(p);
      SecretsAreWith(secrets, owned, cells, loaded, sd, vds, LoadSecret(p));
      secrets := secrets[p.name := sd];
      owned, cells := owned + {sd}, cells + vds;
    }

    static method Restore(p: PersistedSecret) returns (sd: SecretData, ghost vds: set<VersionData>)
      ensures fresh(sd) && fresh(vds) && LoadSecret(p).name == p.name
      ensures SecretIs(sd, vds, p.name, LoadSecret(p))
    {
      hide LoadVersion;
      sd := new SecretData(p.name, p.createTime, p.labels, p.nextVersion);
      ghost var s := LoadSecret(p);
      vds := {};
      for i := 0 to |p.versions|
        invariant fresh(vds) && sd.nextVersion == p.nextVersion
        invariant VersionsAre(sd.versions, vds, p.name, s.versions[..i])
      {
        var vd := new VersionData(p.name, i, LoadVersion(p.versions[i]));
        sd.versions := sd.versions + [vd];
        vds := vds + {vd};
      }
      assert s.versions[..|p.versions|] == s.versions;
    }

    // ----- secrets -----

    method CreateSecret(parent: string, id: string, labels: map<string, string>, now: int) returns (r: Result<()>)
      requires Valid()
      modifies this`secrets, this`owned, this`file, this`st
      ensures r == if SecretName(parent, id) in old(secrets) then AlreadyExists else Ok(())
      ensures forall s :: s in owned ==> s in old(owned) || fresh(s)
      ensures st == Step(old(st), Create(SecretName(parent, id), labels, now))
      ensures Valid()
    {
      hide SecretsAre, OnDisk, SecretName;
      SameKeys();
      var name := SecretName(parent, id);
      if name in secrets { return AlreadyExists; }
      var sd := new SecretData(name, now, labels, 1);
      SecretsAreWith(secrets, owned, cells, st, sd, {}, Secret(name, now, labels, [], 1));
      assert cells + {} == cells;
      secrets := secrets[name := sd];
      owned := owned + {sd};
      Persist(Step(st, Create(name, labels, now)));
      r := Ok(());
    }

    lemma SameKeys()
      requires Valid()
      ensures secrets.Keys == st.Keys
    {}

    method DeleteSecret(name: string) returns (r: Result<()>)
      requires Valid()
      modifies this`secrets, this`file, this`st
      ensures r == if name in old(secrets) then Ok(()) else NotFound
      ensures st == Step(old(st), Delete(name))
      ensures Valid()
    {
      hide OnDisk, SecretIs;
      if name !in secrets {
        assert st - {name} == st;
        return NotFound;
      }
      secrets := secrets - {name};
      Persist(Step(st, Delete(name)));
      r := Ok(());
    }

    // ----- versions -----

    method AddSecretVersion(secret: string, payload: string, now: int) returns (r: Result<Version>)
      requires Valid()
      modifies owned, this`cells, this`file, this`st
      ensures r == if secret !in old(st) then NotFound else Ok(NewVersion(old(st)[secret], secret, payload, now))
      ensures secret in old(st) ==>
                && r.Ok? && r.value.state == Enabled && r.value.payload == Some(payload) && r.value.createTime == now
                && Access(st, secret, "latest") == Ok(payload)
      ensures forall v :: v in cells ==> v in old(cells) || fresh(v)
      ensures st == Step(old(st), Add(secret, payload, now))
      ensures Valid()
    {
      hide SecretsAre, OnDisk, NewVersion;
      SameKeys();
      if secret !in secrets { return NotFound; }
      AddedIsAccessible(st, secret, payload, now);
      AddMeans(st, secret, payload, now);
      IsNew(st, secret, payload, now);
      var v := Append(secret, payload, now, st);
      Persist(Step(st, Add(secret, payload, now)));
      r := Ok(v);
    }

    static lemma {:induction false} IsNew(s: State, secret: string, payload: string, now: int)
      requires secret in s
      ensures var t := AddVersion(s, secret, payload, now)[secret];
              |t.versions| > 0 && t.versions[|t.versions| - 1] == NewVersion(s[secret], secret, payload, now)
    {}

    method Append(secret: string, payload: string, now: int, ghost s: State) returns (v: Version)
      requires Holds(s) && secret in s && secret in secrets
      modifies owned, this`cells
      ensures v == NewVersion(s[secret], secret, payload, now)
      ensures forall v :: v in cells ==> v in old(cells) || fresh(v)
      ensures Holds(AddVersion(s, secret, payload, now))
    {
      hide SecretsAre, SecretIs, OthersAre, VersionName, Numeral;
      var sd := secrets[secret];
      Apart(secrets, owned, cells, s, secret);
      var versionNum := sd.nextVersion;
      v := Version(VersionName(secret, Numeral(versionNum)), now, Enabled, None, Some(payload));
      ghost var next := AddVersion(s, secret, payload, now);
      var vd := Extend(secret, sd, v, s[secret], next[secret]);
      MoreCells(secrets, owned, cells, s, secret, vd);
      cells := cells + {vd};
      Together(secrets, owned, cells, s, secret, next[secret]);
    }

    /** Appends a version to a secret, and counts it. */
    method Extend(ghost secret: string, sd: SecretData, v: Version, ghost before: Secret, ghost after: Secret)
      returns (vd: VersionData)
      requires SecretIs(sd, cells, secret, before)
      requires after == before.(versions := before.versions + [v], nextVersion := Wrap32(before.nextVersion + 1))
      modifies sd
      ensures fresh(vd) && SecretIs(sd, cells + {vd}, secret, after)
    {
      sd.nextVersion := Wrap32(sd.nextVersion + 1);
      vd := new VersionData(secret, |sd.versions|, v);
      sd.versions := sd.versions + [vd];
    }

    method EnableSecretVersion(secret: string, id: string) returns (r: Result<()>)
      requires Valid()
      modifies cells, this`file, this`st
      ensures r == ChangeResult(old(st), secret, id)
      ensures st == Step(old(st), Enable(secret, id))
      ensures Valid()
    {
      hide Store.Holds, OnDisk, Resolve;
      var vd := ResolveVersion(secret, id);
      if vd.None? { return NotFound; }
      if vd.value.state == Destroyed { return FailedPrecondition; }
      Change(secret, Lookup(st, secret, id).value, vd.value, Enabled, vd.value.destroyTime, vd.value.payload, st);
      Persist(Step(st, Enable(secret, id)));
      r := Ok(());
    }

    method DisableSecretVersion(secret: string, id: string) returns (r: Result<()>)
      requires Valid()
      modifies cells, this`file, this`st
      ensures r == ChangeResult(old(st), secret, id)
      ensures st == Step(old(st), Disable(secret, id))
      ensures Valid()
    {
      hide Store.Holds, OnDisk, Resolve;
      var vd := ResolveVersion(secret, id);
      if vd.None? { return NotFound; }
      if vd.value.state == Destroyed { return FailedPrecondition; }
      Change(secret, Lookup(st, secret, id).value, vd.value, Disabled, vd.value.destroyTime, vd.value.payload, st);
      Persist(Step(st, Disable(secret, id)));
      r := Ok(());
    }

    method DestroySecretVersion(secret: string, id: string, now: int) returns (r: Result<()>)
      requires Valid()
      modifies cells, this`file, this`st
      ensures r == if Lookup(old(st), secret, id).None? then NotFound else Ok(())
      ensures st == Step(old(st), DestroyVersion(secret, id, now))
      ensures Valid()
    {
      hide Store.Holds, OnDisk, Resolve;
      var vd := ResolveVersion(secret, id);
      if vd.None? { return NotFound; }
      Change(secret, Lookup(st, secret, id).value, vd.value, Destroyed, Some(now), None, st);
      Persist(Step(st, DestroyVersion(secret, id, now)));
      r := Ok(());
    }

    /** Edits one version in place, and no other. */
    method Change(ghost secret: string, ghost i: nat, vd: VersionData, state: VersionState, destroyTime: Option<int>,
                  payload: Option<string>, ghost s: State)
      requires Holds(s) && secret in s && i < |s[secret].versions|
      requires secret in secrets && i < |secrets[secret].versions| && secrets[secret].versions[i] == vd
      modifies vd
      ensures Holds(WithVersion(s, secret, i,
                                s[secret].versions[i].(state := state, destroyTime := destroyTime, payload := payload)))
    {
      hide Store.Holds;
      var v := s[secret].versions[i].(state := state, destroyTime := destroyTime, payload := payload);
      ApartVersion(secret, i, s);
      vd.state, vd.destroyTime, vd.payload := state, destroyTime, payload;
      TogetherVersion(secret, i, vd, s, v);
    }

    /** The heap holds the state, but for one version. */
    ghost predicate HoldsBut(secret: string, i: nat, s: State)
      reads this, owned, OtherVersions(cells, secret, i)
    {
      && secrets.Keys == s.Keys
      && forall name :: name in secrets ==>
           secrets[name] in owned && SecretIsBut(secrets[name], cells, name, s[name], secret, i)
    }

    lemma {:induction false} ApartVersion(secret: string, i: nat, s: State)
      requires Holds(s) && secret in s && i < |s[secret].versions|
      ensures HoldsBut(secret, i, s) && secret in secrets && i < |secrets[secret].versions|
      ensures var vd := secrets[secret].versions[i];
              && vd in cells && vd !in OtherVersions(cells, secret, i) && vd.secret == secret && vd.index == i
              && vd.Value() == s[secret].versions[i]
    {}

    lemma TogetherVersion(secret: string, i: nat, vd: VersionData, s: State, v: Version)
      requires HoldsBut(secret, i, s) && secret in s && i < |s[secret].versions|
      requires secret in secrets && i < |secrets[secret].versions| && secrets[secret].versions[i] == vd
      requires vd in cells && vd.secret == secret && vd.index == i && vd.Value() == v
      ensures Holds(WithVersion(s, secret, i, v))
    {}
  }

  ghost function OtherVersions(cells: set<VersionData>, secret: string, i: nat): set<VersionData> {
    set vd | vd in cells && !(vd.secret == secret && vd.index == i)
  }

  ghost predicate SecretIsBut(sd: SecretData, cells: set<VersionData>, name: string, s: Secret, secret: string, i: nat)
    reads sd, OtherVersions(cells, secret, i)
  {
    && sd.name == name == s.name && sd.createTime == s.createTime && sd.labels == s.labels
    && sd.nextVersion == s.nextVersion && |sd.versions| == |s.versions|
    && forall j :: 0 <= j < |sd.versions| && !(name == secret && j == i) ==>
         sd.versions[j] in OtherVersions(cells, secret, i) && sd.versions[j].secret == name && sd.versions[j].index == j
         && sd.versions[j].Value() == s.versions[j]
  }

  /** The outcome of enabling or disabling a version. */
  function ChangeResult(st: State, secret: string, id: string): Result<()> {
    var k := Lookup(st, secret, id);
    if k.None? then NotFound
    else if st[secret].versions[k.value].state == Destroyed then FailedPrecondition
    else Ok(())
  }

  lemma ReloadedOnDisk(file: Option<seq<PersistedSecret>>, before: State)
    requires OnDisk(file, before)
    ensures OnDisk(file, Reload(before))
  {
    forall name | name in before ensures SaveSecret(LoadSecret(SaveSecret(before[name]))) == SaveSecret(before[name]) {
      SavedAgain(before[name]);
    }
  }

  lemma SavedAgain(s: Secret)
    ensures SaveSecret(LoadSecret(SaveSecret(s))) == SaveSecret(s)
  {
    var p, q := SaveSecret(s), SaveSecret(LoadSecret(SaveSecret(s)));
    forall i | 0 <= i < |p.versions| ensures q.versions[i] == p.versions[i] {
      assert p.versions[i] == SaveVersion(s.versions[i]);
    }
    assert q.versions == p.versions;
  }

  lemma SecretsAreWith(secrets: map<string, SecretData>, owned: set<SecretData>, cells: set<VersionData>, st: State,
                       sd: SecretData, more: set<VersionData>, s: Secret)
    requires SecretsAre(secrets, owned, cells, st) && SecretIs(sd, more, s.name, s)
    ensures SecretsAre(secrets[s.name := sd], owned + {sd}, cells + more, st[s.name := s])
  {
    forall name | name in secrets ensures SecretIs(secrets[name], cells + more, name, st[name]) {
      assert SecretIs(secrets[name], cells, name, st[name]);
    }
  }
}
