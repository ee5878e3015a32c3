/**
 * The Vault configuration the controller derives from a VaultSecret, and the
 * choice of the file the service-account token is read from.
 */
module Config {
  import opened Types

  /** The only authentication method the controller supports. */
  const DefaultJwtAuthMethod := "jwt"
  /** Where Kubernetes mounts the service-account token. */
  const DefaultJwtFile := "/var/run/secrets/kubernetes.io/serviceaccount/token"
  /** The Vault auth mount used when the VaultSecret names none. */
  const DefaultAuthPath := "kubernetes"
  /** The first environment variable that overrides the token file. */
  const TokenFileVar := "KUBERNETES_SERVICE_ACCOUNT_TOKEN"
  /** The second environment variable that overrides the token file. */
  const JwtFileVar := "VAULT_JWT_FILE"

  /** `VaultConfig` (its TLS and timeout fields are not part of this model). */
  datatype VaultConfig = VaultConfig(addr: string, authMethod: string, authPath: string, role: string, path: string)

  /** The configuration Reconcile builds from the spec of the VaultSecret it loaded. */
  function DeriveConfig(spec: VaultSecretSpec): (c: VaultConfig)
    ensures c.addr == spec.vaultAddress && c.path == spec.path && c.role == spec.role
    ensures c.authMethod == DefaultJwtAuthMethod
    ensures c.authPath != ""
    ensures spec.authPath != "" ==> c.authPath == spec.authPath
    ensures spec.authPath == "" ==> c.authPath == DefaultAuthPath
  {
    var c := VaultConfig(spec.vaultAddress, DefaultJwtAuthMethod, DefaultAuthPath, spec.role, spec.path);
    if |spec.authPath| > 0 then c.(authPath := spec.authPath) else c
  }

  /** `os.Getenv`: the value of an environment variable, empty when it is unset. */
  function Getenv(env: map<string, string>, name: string): (value: string)
    ensures name in env ==> value == env[name]
    ensures name !in env ==> value == ""
    ensures value != "" ==> name in env && env[name] == value
  {
    if name in env then env[name] else ""
  }

  /** The file the JWT is read from: the first non-empty override, else the default mount. */
  function JwtFile(env: map<string, string>): (file: string)
    ensures file != ""
    ensures file == Getenv(env, TokenFileVar) || file == Getenv(env, JwtFileVar) || file == DefaultJwtFile
    ensures Getenv(env, TokenFileVar) != "" ==> file == Getenv(env, TokenFileVar)
  {
    if Getenv(env, TokenFileVar) != "" then Getenv(env, TokenFileVar)
    else if Getenv(env, JwtFileVar) != "" then Getenv(env, JwtFileVar)
    else DefaultJwtFile
  }

  /** The second override is used exactly when the first is unset or empty and the second is not. */
  lemma JwtFileFallback(env: map<string, string>)
    requires Getenv(env, TokenFileVar) == ""
    ensures Getenv(env, JwtFileVar) != "" ==> JwtFile(env) == Getenv(env, JwtFileVar)
    ensures Getenv(env, JwtFileVar) == "" ==> JwtFile(env) == DefaultJwtFile
  {
  }

  /** Setting the first override hides whatever the second one says. */
  lemma JwtFilePriority(env: map<string, string>, other: string)
    requires Getenv(env, TokenFileVar) != ""
    ensures JwtFile(env[JwtFileVar := other]) == JwtFile(env)
  {
    assert Getenv(env[JwtFileVar := other], TokenFileVar) == Getenv(env, TokenFileVar);
  }

  /** The Vault path of the login endpoint of an auth mount: `auth/{authPath}/login`. */
  function LoginPath(authPath: string): (p: string)
    ensures |p| == |authPath| + 11
    ensures p[..5] == "auth/" && p[|p| - 6..] == "/login"
  {
    "auth/" + authPath + "/login"
  }

  /** The auth mount can be read back from the login path, so distinct mounts log in at distinct paths. */
  lemma LoginPathMount(authPath: string)
    ensures LoginPath(authPath)[5..|authPath| + 5] == authPath
  {
  }

  lemma LoginPathInjective(a: string, b: string)
    requires LoginPath(a) == LoginPath(b)
    ensures a == b
  {
    LoginPathMount(a);
    LoginPathMount(b);
  }
}
