/**
 * `VaultSecretReconciler.Reconcile`: load the VaultSecret, derive the Vault
 * configuration, look up the child Secret, and when it is absent fetch the
 * data from Vault, build the Secret and create it. The only change of state
 * is one-way: a child Secret goes from absent to present and is never
 * touched again.
 *
 * The cluster is two maps, VaultSecrets and Secrets, keyed by namespaced
 * name. Failures of the Kubernetes API other than "not found" are given as
 * `ApiFaults`; what Vault and the node answer is given as a `VaultEnv`.
 */
module Reconciler {
  import opened Wrappers
  import opened Types
  import opened Config
  import opened VaultClient
  import opened SecretMaker

  /** Errors other than "not found" that the API server returns for each call, when it fails. */
  datatype ApiFaults = ApiFaults(getRequest: Option<string>, getSecret: Option<string>, create: Option<string>)

  /** `ctrl.Result` (only `Requeue` is ever set). */
  datatype ReconcileResult = ReconcileResult(requeue: bool)

  const NoRequeue := ReconcileResult(false)

  /** The objects the controller sees in the cluster. */
  datatype Cluster = Cluster(requests: map<NamespacedName, VaultSecret>, secrets: map<NamespacedName, Secret>)

  /** Every object is stored under its own namespace and name. */
  predicate Consistent(c: Cluster) {
    (forall k :: k in c.requests ==> c.requests[k].Key() == k) &&
    (forall k :: k in c.secrets ==> c.secrets[k].Key() == k)
  }

  /** The shape `SecretMake` relies on holds of whatever Vault's read returns. */
  predicate ReadsWellShaped(v: VaultEnv) {
    v.read.Ok? && v.read.value.Some? ==> WellShaped(v.read.value.value)
  }

  /** `r.Get` of a VaultSecret. */
  function LookupRequest(c: Cluster, key: NamespacedName, fault: Option<string>): (r: Result<VaultSecret, Error>)
    ensures r.Ok? <==> fault.None? && key in c.requests
    ensures r.Ok? ==> r.value == c.requests[key]
    ensures r.Err? && r.error.NotFound? <==> fault.None? && key !in c.requests
  {
    if fault.Some? then Err(Failure(fault.value))
    else if key in c.requests then Ok(c.requests[key])
    else Err(NotFound(key))
  }

  /** `r.Get` of a Secret. */
  function LookupSecret(c: Cluster, key: NamespacedName, fault: Option<string>): (r: Result<Secret, Error>)
    ensures r.Ok? <==> fault.None? && key in c.secrets
    ensures r.Ok? ==> r.value == c.secrets[key]
    ensures r.Err? && r.error.NotFound? <==> fault.None? && key !in c.secrets
  {
    if fault.Some? then Err(Failure(fault.value))
    else if key in c.secrets then Ok(c.secrets[key])
    else Err(NotFound(key))
  }

  /** `client.IgnoreNotFound`. */
  function IgnoreNotFound(e: Error): (r: Option<Error>)
    ensures r.None? <==> e.NotFound?
    ensures !e.NotFound? ==> r == Some(e)
  {
    if e.NotFound? then None else Some(e)
  }

  /** What one call of Reconcile leaves behind: the Secrets, the result, the error and the calls it made. */
  datatype Outcome = Outcome(secrets: map<NamespacedName, Secret>, result: ReconcileResult, err: Option<Error>, calls: seq<Call>)

  /** One reconciliation of `req`, as a function of the cluster and the collaborators' answers. */
  function ReconcileSpec(c: Cluster, req: NamespacedName, faults: ApiFaults, v: VaultEnv): (o: Outcome)
    requires ReadsWellShaped(v)
    ensures o.result.requeue <==>
      faults.getRequest.None? && req in c.requests &&
      faults.getSecret.None? && c.requests[req].Key() !in c.secrets && faults.create.None?
    ensures o.result.requeue ==> o.err.None?
    ensures |o.calls| >= 1 && o.calls[0] == GetVaultSecret(req)
  {
    match LookupRequest(c, req, faults.getRequest)
    case Err(e) => Outcome(c.secrets, NoRequeue, IgnoreNotFound(e), [GetVaultSecret(req)])
    case Ok(vs) =>
      var o := ChildSpec(c, vs, faults, v);
      o.(calls := [GetVaultSecret(req)] + o.calls)
  }

  /** The rest of Reconcile once the VaultSecret `vs` is loaded: look up its child Secret and act on the answer. */
  function ChildSpec(c: Cluster, vs: VaultSecret, faults: ApiFaults, v: VaultEnv): (o: Outcome)
    requires ReadsWellShaped(v)
    ensures o.result.requeue <==> faults.getSecret.None? && vs.Key() !in c.secrets && faults.create.None?
    ensures |o.calls| >= 1 && o.calls[0] == GetSecret(vs.Key())
  {
    var lookup := [GetSecret(vs.Key())];
    match LookupSecret(c, vs.Key(), faults.getSecret)
    case Ok(_) => Outcome(c.secrets, NoRequeue, None, lookup)
    case Err(e) =>
      if !e.NotFound? then Outcome(c.secrets, NoRequeue, Some(e), lookup)
      else
        var created := MaterializeSpec(c, vs, faults.create, v);
        created.(calls := lookup + created.calls)
  }

  /** The branch of Reconcile where the child Secret is absent: fetch, make, create. */
  function MaterializeSpec(c: Cluster, vs: VaultSecret, createFault: Option<string>, v: VaultEnv): (o: Outcome)
    requires ReadsWellShaped(v)
    ensures o.err.None? <==> createFault.None?
    ensures o.result.requeue <==> o.err.None?
    ensures o.err.Some? ==> o.secrets == c.secrets
    ensures o.err.None? ==> vs.Key() in o.secrets && o.secrets[vs.Key()].ownerReferences == [ControllerReference(vs)]
  {
    var fetched := Fetch(DeriveConfig(vs.spec), v);
    var secret := SecretFor(vs, fetched.data);
    var calls := fetched.calls + [Create(secret)];
    if createFault.Some? then Outcome(c.secrets, NoRequeue, Some(Failure(createFault.value)), calls)
    else Outcome(c.secrets[vs.Key() := secret], ReconcileResult(true), None, calls)
  }

  /**
   * A VaultSecret that cannot be loaded ends the reconciliation at once with
   * no requeue: "not found" is swallowed, any other error is returned, and
   * nothing else is looked up, fetched or created.
   */
  lemma RequestLookupFailure(c: Cluster, req: NamespacedName, faults: ApiFaults, v: VaultEnv)
    requires ReadsWellShaped(v)
    requires faults.getRequest.Some? || req !in c.requests
    ensures ReconcileSpec(c, req, faults, v).result == NoRequeue
    ensures ReconcileSpec(c, req, faults, v).err ==
      if faults.getRequest.Some? then Some(Failure(faults.getRequest.value)) else None
    ensures ReconcileSpec(c, req, faults, v).secrets == c.secrets
    ensures ReconcileSpec(c, req, faults, v).calls == [GetVaultSecret(req)]
  {
  }

  /** A failed lookup of the child Secret returns its error with no requeue; nothing is fetched or created. */
  lemma ChildLookupFailure(c: Cluster, req: NamespacedName, faults: ApiFaults, v: VaultEnv)
    requires ReadsWellShaped(v)
    requires faults.getRequest.None? && req in c.requests && faults.getSecret.Some?
    ensures ReconcileSpec(c, req, faults, v).result == NoRequeue
    ensures ReconcileSpec(c, req, faults, v).err == Some(Failure(faults.getSecret.value))
    ensures ReconcileSpec(c, req, faults, v).secrets == c.secrets
    ensures ReconcileSpec(c, req, faults, v).calls == [GetVaultSecret(req), GetSecret(c.requests[req].Key())]
    ensures NoVaultCalls(ReconcileSpec(c, req, faults, v).calls)
    ensures Count(ReconcileSpec(c, req, faults, v).calls, CreateCall) == 0
  {
    LookupCounts(req, c.requests[req].Key());
  }

  /** A child Secret that already exists makes Reconcile a no-op: no Vault call, no create, no requeue, no error. */
  lemma ExistingSecretIsNoop(c: Cluster, req: NamespacedName, faults: ApiFaults, v: VaultEnv)
    requires ReadsWellShaped(v)
    requires faults.getRequest.None? && faults.getSecret.None?
    requires req in c.requests && c.requests[req].Key() in c.secrets
    ensures ReconcileSpec(c, req, faults, v) ==
      Outcome(c.secrets, NoRequeue, None, [GetVaultSecret(req), GetSecret(c.requests[req].Key())])
    ensures NoVaultCalls(ReconcileSpec(c, req, faults, v).calls)
    ensures Count(ReconcileSpec(c, req, faults, v).calls, CreateCall) == 0
  {
    LookupCounts(req, c.requests[req].Key());
  }

  /** The two lookups alone hold no Vault call and no create. */
  lemma LookupCounts(req: NamespacedName, child: NamespacedName)
    ensures NoVaultCalls([GetVaultSecret(req), GetSecret(child)])
    ensures Count([GetVaultSecret(req), GetSecret(child)], CreateCall) == 0
  {
    var t := [GetVaultSecret(req), GetSecret(child)];
    assert t[..1][..0] == [];
  }

  /**
   * An absent child Secret is fetched for once and created once, under the
   * VaultSecret's key, owned by it; a failed create returns the error and
   * changes nothing, a successful one adds exactly that Secret and requeues.
   */
  lemma AbsentSecretIsCreated(c: Cluster, req: NamespacedName, faults: ApiFaults, v: VaultEnv)
    requires ReadsWellShaped(v)
    requires faults.getRequest.None? && faults.getSecret.None?
    requires req in c.requests && c.requests[req].Key() !in c.secrets
    ensures var vs := c.requests[req];
      var o := ReconcileSpec(c, req, faults, v);
      var fetched := Fetch(DeriveConfig(vs.spec), v);
      && o.calls == [GetVaultSecret(req), GetSecret(vs.Key())] + fetched.calls + [Create(SecretFor(vs, fetched.data))]
      && Count(o.calls, ConnectCall) == 1 && Count(o.calls, CreateCall) == 1
      && (faults.create.Some? ==>
            o.secrets == c.secrets && o.result == NoRequeue && o.err == Some(Failure(faults.create.value)))
      && (faults.create.None? ==>
            o.secrets == c.secrets[vs.Key() := SecretFor(vs, fetched.data)] && o.result == ReconcileResult(true) && o.err.None?)
  {
    var vs := c.requests[req];
    var lookups := [GetVaultSecret(req), GetSecret(vs.Key())];
    var m := MaterializeSpec(c, vs, faults.create, v);
    AbsentSecretOutcome(c, req, faults, v);
    MaterializeCounts(c, vs, faults.create, v);
    LookupCounts(req, vs.Key());
    CountAppend(lookups, m.calls, ConnectCall);
    CountAppend(lookups, m.calls, CreateCall);
  }

  /** With the child Secret absent, Reconcile is the two lookups followed by the fetch-make-create branch. */
  lemma AbsentSecretOutcome(c: Cluster, req: NamespacedName, faults: ApiFaults, v: VaultEnv)
    requires ReadsWellShaped(v)
    requires faults.getRequest.None? && faults.getSecret.None?
    requires req in c.requests && c.requests[req].Key() !in c.secrets
    ensures var vs := c.requests[req];
      var m := MaterializeSpec(c, vs, faults.create, v);
      ReconcileSpec(c, req, faults, v) == m.(calls := [GetVaultSecret(req), GetSecret(vs.Key())] + m.calls)
  {
  }

  /** The fetch-make-create branch makes one connection to Vault and one create, in that order. */
  lemma MaterializeCounts(c: Cluster, vs: VaultSecret, createFault: Option<string>, v: VaultEnv)
    requires ReadsWellShaped(v)
    ensures var fetched := Fetch(DeriveConfig(vs.spec), v);
      && MaterializeSpec(c, vs, createFault, v).calls == fetched.calls + [Create(SecretFor(vs, fetched.data))]
      && Count(MaterializeSpec(c, vs, createFault, v).calls, ConnectCall) == 1
      && Count(MaterializeSpec(c, vs, createFault, v).calls, CreateCall) == 1
  {
    var fetched := Fetch(DeriveConfig(vs.spec), v);
    FetchThenCreateCounts(DeriveConfig(vs.spec), v, SecretFor(vs, fetched.data));
  }

  lemma FetchThenCreateCounts(cfg: VaultConfig, v: VaultEnv, s: Secret)
    ensures Count(Fetch(cfg, v).calls + [Create(s)], ConnectCall) == 1
    ensures Count(Fetch(cfg, v).calls + [Create(s)], CreateCall) == 1
  {
    FetchCallCounts(cfg, v);
    CreateAfterCounts(Fetch(cfg, v).calls, s);
  }

  /** Appending a create to a trace with one connection and no create gives one of each. */
  lemma CreateAfterCounts(t: seq<Call>, s: Secret)
    requires Count(t, ConnectCall) == 1 && Count(t, CreateCall) == 0
    ensures Count(t + [Create(s)], ConnectCall) == 1
    ensures Count(t + [Create(s)], CreateCall) == 1
  {
    CountSnoc(t, Create(s), ConnectCall);
    CountSnoc(t, Create(s), CreateCall);
  }

  /** A failed Vault exchange is only logged: the Secret is still created, with no data. */
  lemma FetchFailureCreatesEmptySecret(c: Cluster, req: NamespacedName, faults: ApiFaults, v: VaultEnv)
    requires ReadsWellShaped(v)
    requires faults.getRequest.None? && faults.getSecret.None? && faults.create.None?
    requires req in c.requests && c.requests[req].Key() !in c.secrets
    requires Fetch(DeriveConfig(c.requests[req].spec), v).err.Some?
    ensures var key := c.requests[req].Key();
      && key in ReconcileSpec(c, req, faults, v).secrets
      && ReconcileSpec(c, req, faults, v).secrets[key].data == map[]
      && ReconcileSpec(c, req, faults, v).result == ReconcileResult(true)
      && ReconcileSpec(c, req, faults, v).err.None?
  {
  }

  /**
   * Reconcile only ever adds the VaultSecret's own child: Secrets already
   * present keep their value, at most the key of `req` is added, the added
   * Secret is controlled by the VaultSecret, and every object stays under its
   * own key.
   */
  lemma ReconcileIsOneWay(c: Cluster, req: NamespacedName, faults: ApiFaults, v: VaultEnv)
    requires ReadsWellShaped(v) && Consistent(c)
    ensures var o := ReconcileSpec(c, req, faults, v);
      && Consistent(c.(secrets := o.secrets))
      && (forall k :: k in c.secrets ==> k in o.secrets && o.secrets[k] == c.secrets[k])
      && o.secrets.Keys <= c.secrets.Keys + {req}
      && (req in o.secrets && req !in c.secrets ==>
            req in c.requests && o.secrets[req].ownerReferences == [ControllerReference(c.requests[req])])
  {
    ReconcileAddsOnlyChild(c, req, faults, v);
    if req in c.requests {
      var vs := c.requests[req];
      assert vs.Key() == req;
      SecretForMetadata(vs, Fetch(DeriveConfig(vs.spec), v).data);
    }
  }

  /** The Secrets after Reconcile are those before, or those before plus the child built from the fetched data. */
  lemma ReconcileAddsOnlyChild(c: Cluster, req: NamespacedName, faults: ApiFaults, v: VaultEnv)
    requires ReadsWellShaped(v)
    ensures var o := ReconcileSpec(c, req, faults, v);
      || o.secrets == c.secrets
      || (&& req in c.requests && c.requests[req].Key() !in c.secrets
          && o.secrets == c.secrets[c.requests[req].Key() := SecretFor(c.requests[req], Fetch(DeriveConfig(c.requests[req].spec), v).data)])
  {
  }

  /**
   * Idempotency: after a Reconcile that created the child Secret, the next
   * Reconcile of the same request (whatever Vault would answer) leaves the
   * Secrets as they are, makes no Vault call and creates nothing; across the
   * two calls exactly one Secret was created.
   */
  lemma ReconcileIdempotent(c: Cluster, req: NamespacedName, f1: ApiFaults, v1: VaultEnv, f2: ApiFaults, v2: VaultEnv)
    requires ReadsWellShaped(v1) && ReadsWellShaped(v2) && Consistent(c)
    requires ReconcileSpec(c, req, f1, v1).result.requeue
    requires f2.getRequest.None? && f2.getSecret.None?
    ensures var first := ReconcileSpec(c, req, f1, v1);
      var second := ReconcileSpec(c.(secrets := first.secrets), req, f2, v2);
      && second.secrets == first.secrets
      && second.result == NoRequeue && second.err.None?
      && NoVaultCalls(second.calls)
      && Count(first.calls + second.calls, CreateCall) == 1
  {
    var first := ReconcileSpec(c, req, f1, v1);
    var vs := c.requests[req];
    AbsentSecretIsCreated(c, req, f1, v1);
    var c2 := c.(secrets := first.secrets);
    ExistingSecretIsNoop(c2, req, f2, v2);
    CountAppend(first.calls, ReconcileSpec(c2, req, f2, v2).calls, CreateCall);
  }

  /**
   * A Vault failure at creation time is permanent: the Secret is created with
   * no data, and the next Reconcile, whatever Vault would then answer, keeps
   * it empty and does not fetch again.
   */
  lemma FetchFailureIsPermanent(c: Cluster, req: NamespacedName, f1: ApiFaults, v1: VaultEnv, f2: ApiFaults, v2: VaultEnv)
    requires ReadsWellShaped(v1) && ReadsWellShaped(v2) && Consistent(c)
    requires f1 == ApiFaults(None, None, None) && f2.getRequest.None? && f2.getSecret.None?
    requires req in c.requests && req !in c.secrets
    requires Fetch(DeriveConfig(c.requests[req].spec), v1).err.Some?
    ensures var first := ReconcileSpec(c, req, f1, v1);
      var second := ReconcileSpec(c.(secrets := first.secrets), req, f2, v2);
      && req in second.secrets && second.secrets[req].data == map[]
      && NoVaultCalls(second.calls)
  {
    assert c.requests[req].Key() == req;
    FetchFailureCreatesEmptySecret(c, req, f1, v1);
    ReconcileIdempotent(c, req, f1, v1, f2, v2);
  }

  /**
   * Whatever the API server answers the second time, a Reconcile that follows
   * the one that created the child leaves the Secrets as they are, makes no
   * Vault call and creates nothing.
   */
  lemma SecondReconcileChangesNothing(c: Cluster, req: NamespacedName, f1: ApiFaults, v1: VaultEnv, f2: ApiFaults, v2: VaultEnv)
    requires ReadsWellShaped(v1) && ReadsWellShaped(v2) && Consistent(c)
    requires ReconcileSpec(c, req, f1, v1).result.requeue
    ensures var first := ReconcileSpec(c, req, f1, v1);
      var second := ReconcileSpec(c.(secrets := first.secrets), req, f2, v2);
      && second.secrets == first.secrets
      && NoVaultCalls(second.calls)
      && Count(second.calls, CreateCall) == 0
  {
    var first := ReconcileSpec(c, req, f1, v1);
    AbsentSecretIsCreated(c, req, f1, v1);
    var c2 := c.(secrets := first.secrets);
    if f2.getRequest.Some? {
      RequestLookupFailure(c2, req, f2, v2);
      assert [GetVaultSecret(req)][..0] == [];
    } else if f2.getSecret.Some? {
      ChildLookupFailure(c2, req, f2, v2);
    } else {
      ExistingSecretIsNoop(c2, req, f2, v2);
    }
  }

  /** The Vault answers of the end-to-end scenario. */
  function ScenarioResponse(): VaultResponse {
    VaultResponse(map["data" := Object(map["password" := Str("hunter2")])])
  }

  function ScenarioVault(): (v: VaultEnv)
    ensures ReadsWellShaped(v)
  {
    VaultEnv(None, map[], map[DefaultJwtFile := Ok("tok-123")], Ok("sess-456"), Ok(Some(ScenarioResponse())))
  }

  /** In the scenario, the exchange logs in at the default mount with the token and the role, then reads with the session token. */
  lemma ScenarioFetch(spec: VaultSecretSpec)
    requires spec == VaultSecretSpec("http://vault:8200", "secret/test", "vault-op", "kubernetes")
    ensures Fetch(DeriveConfig(spec), ScenarioVault()) ==
      FetchOutcome(Some(ScenarioResponse()), None,
        [Connect("http://vault:8200"), ReadFile(DefaultJwtFile),
         Login("auth/kubernetes/login", "tok-123", "vault-op"), ReadPath("secret/test", "sess-456")])
  {
    var v := ScenarioVault();
    assert DeriveConfig(spec) == VaultConfig("http://vault:8200", DefaultJwtAuthMethod, "kubernetes", "vault-op", "secret/test");
    assert JwtFile(v.env) == DefaultJwtFile;
    assert ReadTokenFile(v.files, DefaultJwtFile) == Ok("tok-123");
    assert LoginPath("kubernetes") == "auth/kubernetes/login";
  }

  /** In the scenario, the Secret holds exactly the bytes of `hunter2` under `password`. */
  lemma ScenarioData()
    ensures SecretData(Some(ScenarioResponse())) == map["password" := [0x68, 0x75, 0x6E, 0x74, 0x65, 0x72, 0x32]]
  {
    var m := map["password" := [0x68, 0x75, 0x6E, 0x74, 0x65, 0x72, 0x32]];
    SecretDataBytes(ScenarioResponse());
    Utf8.AsciiBytes("hunter2", m["password"]);
    SameEntries(SecretData(Some(ScenarioResponse())), m);
  }

  /**
   * The end-to-end scenario: a VaultSecret for `secret/test` with role
   * `vault-op` at `http://vault:8200`, a token file holding `tok-123`, a login
   * answering `sess-456` and a read answering `{data: {password: hunter2}}`:
   * one login, one authenticated read, and a created Secret owned by the
   * VaultSecret holding `password`, with a requeue.
   */
  lemma EndToEnd(es: VaultSecret, secrets: map<NamespacedName, Secret>)
    requires es.spec == VaultSecretSpec("http://vault:8200", "secret/test", "vault-op", "kubernetes")
    requires es.Key() !in secrets
    ensures var o := ReconcileSpec(Cluster(map[es.Key() := es], secrets), es.Key(), ApiFaults(None, None, None), ScenarioVault());
      && o.calls == [GetVaultSecret(es.Key()), GetSecret(es.Key()),
                     Connect("http://vault:8200"), ReadFile(DefaultJwtFile),
                     Login("auth/kubernetes/login", "tok-123", "vault-op"), ReadPath("secret/test", "sess-456"),
                     Create(SecretFor(es, Some(ScenarioResponse())))]
      && o.secrets == secrets[es.Key() := SecretFor(es, Some(ScenarioResponse()))]
      && o.secrets[es.Key()].data == map["password" := [0x68, 0x75, 0x6E, 0x74, 0x65, 0x72, 0x32]]
      && o.secrets[es.Key()].ownerReferences == [ControllerReference(es)]
      && o.result == ReconcileResult(true) && o.err.None?
  {
    var c := Cluster(map[es.Key() := es], secrets);
    ScenarioFetch(es.spec);
    ScenarioData();
    var m := MaterializeSpec(c, es, None, ScenarioVault());
    var lookups := [GetVaultSecret(es.Key()), GetSecret(es.Key())];
    assert ReconcileSpec(c, es.Key(), ApiFaults(None, None, None), ScenarioVault()) == m.(calls := lookups + m.calls);
  }

  /**
   * The controller and the part of the cluster it works on. `calls` records,
   * in order, every call the controller has made on the API server, Vault and
   * the filesystem.
   */
  class VaultSecretReconciler {
    var requests: map<NamespacedName, VaultSecret>
    var secrets: map<NamespacedName, Secret>
    var calls: seq<Call>

    ghost predicate Valid()
      reads this`requests, this`secrets
    {
      Consistent(State())
    }

    function State(): Cluster
      reads this`requests, this`secrets
    {
      Cluster(requests, secrets)
    }

    constructor (requests: map<NamespacedName, VaultSecret>, secrets: map<NamespacedName, Secret>)
      requires Consistent(Cluster(requests, secrets))
      ensures Valid() && State() == Cluster(requests, secrets) && calls == []
    {
      this.requests := requests;
      this.secrets := secrets;
      this.calls := [];
    }

    /** `r.Get` of a VaultSecret. */
    method GetVaultSecretObject(key: NamespacedName, fault: Option<string>) returns (r: Result<VaultSecret, Error>)
      modifies this`calls
      ensures r == LookupRequest(State(), key, fault)
      ensures calls == old(calls) + [GetVaultSecret(key)]
    {
      calls := calls + [GetVaultSecret(key)];
      if fault.Some? {
        r := Err(Failure(fault.value));
      } else if key in requests {
        r := Ok(requests[key]);
      } else {
        r := Err(NotFound(key));
      }
    }

    /** `r.Get` of a Secret. */
    method GetSecretObject(key: NamespacedName, fault: Option<string>) returns (r: Result<Secret, Error>)
      modifies this`calls
      ensures r == LookupSecret(State(), key, fault)
      ensures calls == old(calls) + [GetSecret(key)]
    {
      calls := calls + [GetSecret(key)];
      if fault.Some? {
        r := Err(Failure(fault.value));
      } else if key in secrets {
        r := Ok(secrets[key]);
      } else {
        r := Err(NotFound(key));
      }
    }

    /** `r.Client.Create` of a Secret: stored under its own key unless the call fails or the key is taken. */
    method CreateSecret(s: Secret, fault: Option<string>) returns (err: Option<Error>)
      requires Valid()
      modifies this`secrets, this`calls
      ensures Valid()
      ensures calls == old(calls) + [Create(s)]
      ensures err == if fault.Some? then Some(Failure(fault.value))
                     else if s.Key() in old(secrets) then Some(AlreadyExists(s.Key()))
                     else None
      ensures secrets == if err.None? then old(secrets)[s.Key() := s] else old(secrets)
    {
      calls := calls + [Create(s)];
      if fault.Some? {
        err := Some(Failure(fault.value));
      } else if s.Key() in secrets {
        err := Some(AlreadyExists(s.Key()));
      } else {
        secrets := secrets[s.Key() := s];
        err := None;
      }
    }

    /** Lines 108-129 of Reconcile: fetch the data from Vault, make the child Secret and create it. */
    method Materialize(vaultSecret: VaultSecret, config: VaultConfig, createFault: Option<string>, v: VaultEnv)
      returns (res: ReconcileResult, err: Option<Error>)
      requires Valid() && ReadsWellShaped(v)
      requires config == DeriveConfig(vaultSecret.spec)
      requires vaultSecret.Key() !in secrets
      modifies this`secrets, this`calls
      ensures Valid()
      ensures var o := MaterializeSpec(old(State()), vaultSecret, createFault, v);
        secrets == o.secrets && res == o.result && err == o.err && calls == old(calls) + o.calls
    {
      ghost var calls0 := calls;
      var secData, fetchErr, fetchCalls := VaultReadSecret(config, v);
      calls := calls + fetchCalls;
      // a fetch error is only logged: the Secret is still made, from a nil payload
      var secret, makeErr := SecretMake(vaultSecret, secData);
      if makeErr.Some? {
        res, err := NoRequeue, makeErr;
        return;
      }
      err := CreateSecret(secret, createFault);
      AppendAssoc(calls0, fetchCalls, [Create(secret)]);
      // requeue once the child Secret is created
      res := if err.Some? then NoRequeue else ReconcileResult(true);
    }

    /** Lines 100-132 of Reconcile: look up the child Secret of the loaded VaultSecret and act on the answer. */
    method ReconcileChild(vaultSecret: VaultSecret, config: VaultConfig, faults: ApiFaults, v: VaultEnv)
      returns (res: ReconcileResult, err: Option<Error>)
      requires Valid() && ReadsWellShaped(v)
      requires config == DeriveConfig(vaultSecret.spec)
      modifies this`secrets, this`calls
      ensures Valid()
      ensures var o := ChildSpec(old(State()), vaultSecret, faults, v);
        secrets == o.secrets && res == o.result && err == o.err && calls == old(calls) + o.calls
    {
      ghost var calls0 := calls;
      var found := GetSecretObject(vaultSecret.Key(), faults.getSecret);
      res, err := NoRequeue, None;
      if found.Err? && !found.error.NotFound? {
        err := Some(found.error);
      } else if found.Err? && found.error.NotFound? {
        ghost var o := MaterializeSpec(State(), vaultSecret, faults.create, v);
        res, err := Materialize(vaultSecret, config, faults.create, v);
        AppendAssoc(calls0, [GetSecret(vaultSecret.Key())], o.calls);
      }
    }

    /** `Reconcile` for the request `req`. */
    method Reconcile(req: NamespacedName, faults: ApiFaults, v: VaultEnv) returns (res: ReconcileResult, err: Option<Error>)
      requires Valid() && ReadsWellShaped(v)
      modifies this`secrets, this`calls
      ensures Valid()
      ensures var o := ReconcileSpec(old(State()), req, faults, v);
        secrets == o.secrets && res == o.result && err == o.err && calls == old(calls) + o.calls
    {
      ghost var calls0 := calls;
      var got := GetVaultSecretObject(req, faults.getRequest);
      if got.Err? {
        // a VaultSecret that is not found has been deleted: nothing to do
        res, err := NoRequeue, IgnoreNotFound(got.error);
      } else {
        var vaultSecret := got.value;
        var config := VaultConfig("", "", "", "", "");
        config := config.(addr := vaultSecret.spec.vaultAddress);
        config := config.(path := vaultSecret.spec.path);
        config := config.(role := vaultSecret.spec.role);
        config := config.(authMethod := DefaultJwtAuthMethod);
        config := config.(authPath := DefaultAuthPath);
        if |vaultSecret.spec.authPath| > 0 {
          config := config.(authPath := vaultSecret.spec.authPath);
        }

        ghost var o := ChildSpec(State(), vaultSecret, faults, v);
        res, err := ReconcileChild(vaultSecret, config, faults, v);
        AppendAssoc(calls0, [GetVaultSecret(req)], o.calls);
      }
    }
  }
}
