/**
 * The entities the VaultSecret controller reads and writes: the VaultSecret
 * request, the Kubernetes Secret it materializes, the payload the Vault read
 * returns, the errors the collaborators report, and the calls the controller
 * makes on those collaborators (recorded as a trace so that "no login",
 * "no read" and "no create" can be stated).
 */
module Types {
  import opened Utf8

  /** `types.NamespacedName`: the key of an object in the cluster. */
  datatype NamespacedName = NamespacedName(namespace: string, name: string)

  /** The `Spec` of a VaultSecret (only the fields the controller reads). */
  datatype VaultSecretSpec = VaultSecretSpec(vaultAddress: string, path: string, role: string, authPath: string)

  /** A VaultSecret resource: its type meta, object meta and spec. */
  datatype VaultSecret = VaultSecret(
    apiVersion: string, kind: string,
    name: string, namespace: string, uid: string,
    spec: VaultSecretSpec)
  {
    function Key(): NamespacedName { NamespacedName(namespace, name) }
  }

  /** An owner reference as `ctrl.SetControllerReference` records it. */
  datatype OwnerReference = OwnerReference(
    apiVersion: string, kind: string, name: string, uid: string,
    controller: bool, blockOwnerDeletion: bool)

  /** A `core.Secret` (only the fields the controller sets). */
  datatype Secret = Secret(
    name: string, namespace: string,
    annotations: map<string, string>,
    data: map<string, seq<uint8>>,
    ownerReferences: seq<OwnerReference>)
  {
    function Key(): NamespacedName { NamespacedName(namespace, name) }
  }

  /** A decoded JSON value inside a Vault response. */
  datatype Value = Str(s: string) | Object(fields: map<string, Value>) | Other

  /** A `vaultapi.Secret` as far as the controller looks at it: its `Data` map. */
  datatype VaultResponse = VaultResponse(data: map<string, Value>)

  /**
   * The shape the controller's type assertions take for granted: a `"data"`
   * entry, when present, is an object whose every value is a string.
   */
  predicate WellShaped(r: VaultResponse) {
    "data" in r.data ==>
      r.data["data"].Object? &&
      forall k :: k in r.data["data"].fields ==> r.data["data"].fields[k].Str?
  }

  /** The errors the controller sees. */
  datatype Error =
    | NotFound(key: NamespacedName)       // the object is absent from the cluster
    | AlreadyExists(key: NamespacedName)  // a create of an object that is already there
    | Failure(message: string)            // any other error, with its message

  /** One call of the controller on a collaborator. */
  datatype Call =
    | GetVaultSecret(key: NamespacedName)             // r.Get of the request
    | GetSecret(key: NamespacedName)                  // r.Get of the child Secret
    | Connect(addr: string)                           // a new Vault client
    | ReadFile(path: string)                          // the service-account token read
    | Login(path: string, jwt: string, role: string)  // Logical().Write of the login
    | ReadPath(path: string, token: string)           // Logical().Read with the client token set
    | Create(secret: Secret)                          // r.Client.Create of the child Secret

  datatype CallKind = GetVaultSecretCall | GetSecretCall | ConnectCall | ReadFileCall | LoginCall | ReadPathCall | CreateCall

  function KindOf(c: Call): CallKind {
    match c
    case GetVaultSecret(_) => GetVaultSecretCall
    case GetSecret(_) => GetSecretCall
    case Connect(_) => ConnectCall
    case ReadFile(_) => ReadFileCall
    case Login(_, _, _) => LoginCall
    case ReadPath(_, _) => ReadPathCall
    case Create(_) => CreateCall
  }

  /** How many calls of kind `k` the trace `t` holds. */
  function Count(t: seq<Call>, k: CallKind): (n: nat)
    ensures n <= |t|
  {
    if t == [] then 0
    else Count(t[..|t| - 1], k) + (if KindOf(t[|t| - 1]) == k then 1 else 0)
  }

  lemma {:induction false} CountAppend(a: seq<Call>, b: seq<Call>, k: CallKind)
    ensures Count(a + b, k) == Count(a, k) + Count(b, k)
    decreases |b|
  {
    if b == [] {
      assert a + b == a;
    } else {
      assert (a + b)[..|a + b| - 1] == a + b[..|b| - 1];
      CountAppend(a, b[..|b| - 1], k);
    }
  }

  lemma CountSnoc(t: seq<Call>, c: Call, k: CallKind)
    ensures Count(t + [c], k) == Count(t, k) + (if KindOf(c) == k then 1 else 0)
  {
    assert (t + [c])[..|t|] == t;
  }

  lemma AppendAssoc(a: seq<Call>, b: seq<Call>, c: seq<Call>)
    ensures (a + b) + c == a + (b + c)
  {
  }

  /** A trace in which the controller never talked to Vault. */
  predicate NoVaultCalls(t: seq<Call>) {
    Count(t, ConnectCall) == 0 && Count(t, ReadFileCall) == 0 &&
    Count(t, LoginCall) == 0 && Count(t, ReadPathCall) == 0
  }
}
