# vault-operator: the VaultSecret controller, modelled in Dafny

This project models the reconciliation logic of the `VaultSecret` controller,
found in `controllers/vaultsecret_controller.go`. A VaultSecret names a Vault
address, a secret path, a role and an optional auth mount. On each
reconciliation of a VaultSecret, the controller works in five steps:

1. It loads the VaultSecret and derives a Vault configuration from its spec.
2. It looks up the child Kubernetes Secret of the same name and namespace.
3. If that Secret is absent, it logs in to Vault with the pod's
   service-account JWT and reads the secret path.
4. It builds a Secret from the `"data"` entry of the payload.
5. It creates the Secret, owned by the VaultSecret, and asks to be requeued.

A Secret that already exists is never touched again.

The model has these modules:

- `Types` holds the entities:
  - `VaultSecret`, `Secret`, `OwnerReference`, the Vault payload `VaultResponse` and the errors.
  - A trace of `Call`s, and `Count`, which counts the calls of one kind in a trace.
- `Config` holds `VaultConfig`, the configuration derived from a spec (`DeriveConfig`), the choice of the token file (`JwtFile`) and the login path.
- `VaultClient` holds `VaultReadSecret`:
  - an imperative method with early returns;
  - proved equal to the function `Fetch`;
  - properties of the exchange are proved about `Fetch`.
- `SecretMaker` holds `SecretMake`:
  - two nested loops that fill the data map;
  - proved equal to the function `SecretFor`.
- `Utf8` models Go's `[]byte(s)` as UTF-8 encoding, with a decoder and the round trip.
- `Reconciler` holds the cluster, the functions `ReconcileSpec`, `ChildSpec` and `MaterializeSpec`, and the lemmas about them:
  - the branches of `Reconcile`;
  - idempotency;
  - the one-way change of the cluster;
  - an end-to-end scenario.

  It also holds the class `VaultSecretReconciler`. The class keeps the VaultSecrets and Secrets of the cluster as maps, plus the trace of every call made. Its `Reconcile` method changes the fields in place, and is proved to leave exactly the state that `ReconcileSpec` computes.

Nothing outside the controller is modelled. Each collaborator is a parameter:

- `ApiFaults`: the error, if any, that the API server returns for each of the two `Get`s and for the `Create`.
- `VaultEnv`:
  - whether building the Vault client fails;
  - the process environment;
  - the contents of each readable file;
  - what the login returns;
  - what the read returns.

Two points of the source shape the model:

- Every error of `VaultReadSecret` is only logged by Reconcile (lines 110-113), including the unsupported auth method, an unreadable token and a failed login. A Secret with no data is then created and requeued (see `FetchFailureCreatesEmptySecret`). Because an existing Secret is never updated, that empty Secret stays empty (see `FetchFailureIsPermanent`).
- The child Secret is looked up under the VaultSecret's own name and namespace, not under the request key. The two coincide in a cluster where every object is stored under its own key (`Consistent`).

## Model

All source paths are in `controllers/vaultsecret_controller.go`.

| member | source | states |
|---|---|---|
| Config.DeriveConfig | controllers/vaultsecret_controller.go:89-98 | address, path and role are copied from the spec; the auth method is always `jwt`; the auth path is the spec's when it is non-empty, `kubernetes` otherwise, so it is never empty |
| Config.JwtFile | controllers/vaultsecret_controller.go:166-171 | the token file is never empty, is one of the two overrides or the default mount, and is `KUBERNETES_SERVICE_ACCOUNT_TOKEN` whenever that is set and non-empty |
| Config.JwtFileFallback | controllers/vaultsecret_controller.go:166-171 | with the first override unset, `VAULT_JWT_FILE` is used when non-empty, and the default service-account token path otherwise |
| Config.JwtFilePriority | controllers/vaultsecret_controller.go:167-170 | when the first override is set, the value of `VAULT_JWT_FILE` has no effect on the token file |
| Config.LoginPath | controllers/vaultsecret_controller.go:184 | the login path starts with `auth/`, ends with `/login`, and is 11 characters longer than the mount |
| Config.LoginPathMount | controllers/vaultsecret_controller.go:184 | the mount can be read back out of the login path |
| Config.LoginPathInjective | controllers/vaultsecret_controller.go:184 | distinct mounts log in at distinct paths |
| VaultClient.Fetch | controllers/vaultsecret_controller.go:154-198 | an error never comes with a payload; a payload is exactly what the read returned; the first call is always the connection to the configured address |
| VaultClient.VaultReadSecret | controllers/vaultsecret_controller.go:154-198 | the step-by-step method with early returns returns the payload, error and calls of `Fetch` |
| VaultClient.FetchRejectsOtherMethods | controllers/vaultsecret_controller.go:162-164 | an auth method other than `jwt` fails with `unsupported Auth method: <method>` and no payload; after the connection, no token read, login or read happens |
| VaultClient.DerivedConfigReadsToken | controllers/vaultsecret_controller.go:162-174 | a configuration derived by Reconcile always passes the method gate: the second call reads the chosen token file |
| VaultClient.FetchTokenFailure | controllers/vaultsecret_controller.go:174-177 | an unreadable token file fails the exchange with the read error, and no login or read happens |
| VaultClient.FetchLoginFailure | controllers/vaultsecret_controller.go:184-188 | a failed login fails the exchange with no payload, and no read happens; once the login is reached, the error returned is the login's own |
| VaultClient.FetchReadFailure | controllers/vaultsecret_controller.go:190-195 | a failed read after a successful login fails the exchange with the read's own error and no payload, after exactly one login and one read |
| VaultClient.FetchCallCounts | controllers/vaultsecret_controller.go:157-197 | each exchange connects once, logs in at most once, reads at most as often as it logs in, reads only after a successful login, and creates nothing |
| VaultClient.ExchangeCounts | controllers/vaultsecret_controller.go:157-191 | a trace shaped connect, token read, login, read has one connection, and has a login and a read only when it reached them |
| VaultClient.FetchRequests | controllers/vaultsecret_controller.go:179-191 | the login goes to `auth/{authPath}/login` with the JWT read from the token file and the configured role; the read asks for the configured path with the client token from the login |
| VaultClient.FetchSucceeds | controllers/vaultsecret_controller.go:157-197 | the exchange succeeds exactly when client construction, the method gate, the token read, the login and the read all do, and then returns what the read returned |
| SecretMaker.ControllerReference | controllers/vaultsecret_controller.go:226 | the owner reference names the VaultSecret by uid and name, and marks it as the controller that blocks owner deletion |
| SecretMaker.SecretMake | controllers/vaultsecret_controller.go:201-228 | the nested loops build exactly `SecretFor(es, secret)`, and the error is always nil |
| SecretMaker.SecretDataMatchesPayload | controllers/vaultsecret_controller.go:203-210 | the Secret's data keys are exactly the keys of the payload's `"data"` object, and each value decodes back to its string |
| SecretMaker.SecretDataEmpty | controllers/vaultsecret_controller.go:202-203 | a nil payload, or one without a `"data"` entry, gives empty data |
| SecretMaker.SecretDataIgnoresOtherKeys | controllers/vaultsecret_controller.go:204-205 | top-level payload entries other than `"data"` do not affect the data |
| SecretMaker.SecretForMetadata | controllers/vaultsecret_controller.go:213-226 | the Secret has the VaultSecret's name and namespace, exactly one annotation (apiVersion to kind), and a single owner reference to the VaultSecret as controller |
| SecretMaker.SecretDataExample | controllers/vaultsecret_controller.go:204-208 | `{data: {user: alice, pass: s3cret}, metadata: ...}` gives exactly `{user: bytes("alice"), pass: bytes("s3cret")}` |
| Utf8.DecodeEncode | controllers/vaultsecret_controller.go:207 | the bytes `[]byte(s)` decode back to `s`, for every string |
| Utf8.EncodeAscii | controllers/vaultsecret_controller.go:207 | the bytes of an ASCII string are its code points, one byte per character |
| Utf8.EncodeInjective | controllers/vaultsecret_controller.go:207 | distinct strings give distinct bytes, so no two payload values collide in the Secret |
| Reconciler.IgnoreNotFound | controllers/vaultsecret_controller.go:86 | the error is dropped exactly when it is "not found", and every other error is returned unchanged |
| Reconciler.RequestLookupFailure | controllers/vaultsecret_controller.go:81-87 | a VaultSecret that cannot be loaded ends Reconcile with no requeue, the error swallowed if "not found" and returned otherwise, the Secrets unchanged, and no call after the lookup |
| Reconciler.ChildLookupFailure | controllers/vaultsecret_controller.go:100-106 | a child lookup failing with an error other than "not found" returns that error with no requeue, the Secrets unchanged, no Vault call and no create |
| Reconciler.ExistingSecretIsNoop | controllers/vaultsecret_controller.go:100-132 | an existing child Secret makes Reconcile return no requeue and no error after the two lookups, with the Secrets unchanged, no Vault call and no create |
| Reconciler.AbsentSecretIsCreated | controllers/vaultsecret_controller.go:108-129 | an absent child Secret is fetched for and created exactly once, in that order; a failed create returns its error with no requeue and no change; a successful one adds exactly that Secret and requeues |
| Reconciler.FetchFailureCreatesEmptySecret | controllers/vaultsecret_controller.go:110-129 | a failed Vault exchange is only logged: a Secret with no data is still created and Reconcile requeues with no error |
| Reconciler.ReconcileIsOneWay | controllers/vaultsecret_controller.go:75-133 | Reconcile keeps every existing Secret as it was, adds at most the request's own child, which is controlled by the VaultSecret, and keeps every object stored under its own key |
| Reconciler.ReconcileAddsOnlyChild | controllers/vaultsecret_controller.go:108-129 | the Secrets after Reconcile are those before, or those plus the absent child built from the fetched payload |
| Reconciler.ReconcileIdempotent | controllers/vaultsecret_controller.go:100-132 | after a Reconcile that created the child, a second Reconcile changes nothing, returns no requeue and no error, makes no Vault call, and the two together created exactly one Secret |
| Reconciler.SecondReconcileChangesNothing | controllers/vaultsecret_controller.go:75-133 | after a Reconcile that created the child, the next Reconcile, whatever the API server answers, leaves the Secrets as they are, makes no Vault call and creates nothing |
| Reconciler.FetchFailureIsPermanent | controllers/vaultsecret_controller.go:108-132 | a Secret created empty after a Vault failure stays empty on the next Reconcile, which does not contact Vault |
| Reconciler.ScenarioFetch | controllers/vaultsecret_controller.go:157-197 | in the scenario, the exchange connects to `http://vault:8200`, reads the default token file, logs in at `auth/kubernetes/login` with `tok-123` and `vault-op`, and reads `secret/test` with `sess-456` |
| Reconciler.ScenarioData | controllers/vaultsecret_controller.go:204-208 | the scenario payload gives exactly `{password: bytes("hunter2")}` |
| Reconciler.EndToEnd | controllers/vaultsecret_controller.go:75-133 | end to end, the scenario's whole trace is the two lookups, the connection, the token read, one login with `tok-123` and `vault-op`, one read of `secret/test` with `sess-456`, and one create; the created Secret holds `password`, is owned by the VaultSecret, and Reconcile requeues with no error |
| Config.Getenv | controllers/vaultsecret_controller.go:167-169 | a set variable reads as its value and an unset one as empty |
| VaultClient.ReadTokenFile | controllers/vaultsecret_controller.go:174 | an existing file reads as its entry (its contents, or its read error), and a file that does not exist fails |
| Utf8.Encode | controllers/vaultsecret_controller.go:207 | the reference definition of `[]byte(s)`: each character takes one to four bytes; `DecodeEncode`, `EncodeAscii` and `EncodeInjective` state its properties |
| SecretMaker.SecretData | controllers/vaultsecret_controller.go:202-210 | the reference definition of the data map: empty for a nil payload or one without `"data"`, otherwise keyed exactly like the `"data"` object; `SecretDataMatchesPayload`, `SecretDataIgnoresOtherKeys` and `SecretDataExample` state the rest |
| SecretMaker.SecretFor | controllers/vaultsecret_controller.go:213-227 | the reference definition of the built Secret: it is keyed like the VaultSecret, has the single annotation apiVersion to kind, the data of `SecretData`, and the VaultSecret as its one controlling owner |
| Reconciler.LookupRequest | controllers/vaultsecret_controller.go:81 | `r.Get` of the VaultSecret succeeds exactly when no fault is injected and the key is stored, and then returns the stored object; it answers "not found" exactly when no fault is injected and the key is absent |
| Reconciler.LookupSecret | controllers/vaultsecret_controller.go:102 | `r.Get` of the Secret succeeds exactly when no fault is injected and the key is stored, and then returns the stored object; it answers "not found" exactly when no fault is injected and the key is absent |
| Reconciler.MaterializeSpec | controllers/vaultsecret_controller.go:108-129 | the reference definition of fetch, make and create: it succeeds exactly when the create does, requeues exactly when it succeeds, changes nothing on failure, and on success stores a child owned by the VaultSecret; `AbsentSecretIsCreated` and `FetchFailureCreatesEmptySecret` state the rest |
| Reconciler.ChildSpec | controllers/vaultsecret_controller.go:100-132 | the reference definition of the child lookup and its branches: the first call is the lookup, and it requeues exactly when the lookup answers "not found" and the create succeeds |
| Reconciler.ReconcileSpec | controllers/vaultsecret_controller.go:75-133 | the reference definition of Reconcile: the first call loads the VaultSecret; it requeues exactly when the VaultSecret is loaded, its child is absent and the create succeeds, and never with an error; the branch lemmas, `ReconcileIsOneWay` and `ReconcileIdempotent` state the rest |
| Reconciler.VaultSecretReconciler.GetVaultSecretObject | controllers/vaultsecret_controller.go:81 | `r.Get` of the VaultSecret answers the stored object, "not found", or the injected failure, and records the call |
| Reconciler.VaultSecretReconciler.GetSecretObject | controllers/vaultsecret_controller.go:102 | `r.Get` of the Secret answers the stored object, "not found", or the injected failure, and records the call |
| Reconciler.VaultSecretReconciler.CreateSecret | controllers/vaultsecret_controller.go:122 | `Create` stores the Secret under its own key, unless the call fails or the key is taken; every object stays under its own key |
| Reconciler.VaultSecretReconciler.Materialize | controllers/vaultsecret_controller.go:108-129 | fetch, make and create leave exactly the Secrets, result, error and calls of `MaterializeSpec` |
| Reconciler.VaultSecretReconciler.ReconcileChild | controllers/vaultsecret_controller.go:100-132 | the child lookup and its branches leave exactly the Secrets, result, error and calls of `ChildSpec` |
| Reconciler.VaultSecretReconciler.Reconcile | controllers/vaultsecret_controller.go:75-133 | `Reconcile` leaves exactly the Secrets, result, error and calls of `ReconcileSpec`, and keeps every object under its own key |

## Left out

- Client construction (`newVaultClient`, lines 136-151) is not modelled: `vaultapi.DefaultConfig`, TLS set-up and `SkipVerify` belong to the Vault client library. Whether construction fails is an input of the exchange (`VaultEnv.clientFault`).
- The HTTP exchanges with Vault, `ioutil.ReadFile` and `os.Getenv` are inputs of the model, not I/O:
  - the login answer;
  - the read answer;
  - a map of readable files;
  - the environment map.

  A missing file gives Go's "no such file or directory" message. Other file errors come from the map.
- Logging (`log.Log.Info`/`Error`) is not modelled: it has no effect on the outcome.
- `ctrl.SetControllerReference` and the scheme are not modelled. The owner reference is built straight from the VaultSecret's identity, and the error that line 226 ignores is not modelled. `TypeMeta` (apiVersion, kind) is taken from the stored VaultSecret.
- The unchecked type assertions at lines 206-207 panic on a payload of another shape. That panic is not modelled: the shape is a precondition (`WellShaped`, and `ReadsWellShaped` for the read answer).
- VaultClient.Fetch: a login answer with no `Auth` block makes line 190 panic. The model instead assumes that a successful login always yields a client token.
- Reconcile's handling of an error from `SecretMake` (lines 116-119) cannot happen, because `SecretMake` always returns nil. The model keeps the check, which returns that error with no requeue, on a branch proved unreachable.
- `SetupWithManager` is not modelled, and neither are the controller-runtime manager, work queue, watches or concurrent reconciliation of different keys. They are framework wiring.
- The `VaultConfig` fields `SkipVerify`, `TLSSecret` and `ClientTimeout` are not part of the model: nothing in the controller reads them beyond the client library.
- `ctx` and the cluster client are not modelled as objects. The cluster is the two maps of `VaultSecretReconciler`, and API-server failures are injected per call (`ApiFaults`).
