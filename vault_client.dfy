/**
 * `VaultReadSecret`: build a Vault client, check the auth method, read the
 * service-account JWT, log in at `auth/{authPath}/login` with `{jwt, role}`,
 * then read the secret path with the client token the login returned. Each
 * step that fails ends the exchange with that step's error.
 *
 * Vault, the filesystem and the environment are not modelled; what they
 * answer is given as a `VaultEnv`, and what the controller asks of them is
 * recorded in the returned trace of calls.
 */
module VaultClient {
  import opened Wrappers
  import opened Types
  import opened Config

  /** What the collaborators of one exchange answer. */
  datatype VaultEnv = VaultEnv(
    clientFault: Option<Error>,                  // newVaultClient fails with this error
    env: map<string, string>,                    // the process environment
    files: map<string, Result<string, Error>>,   // what reading each existing file yields
    login: Result<string, Error>,                // the client token, or the login error
    read: Result<Option<VaultResponse>, Error>)  // the read's payload (None: nothing at the path), or its error

  /** `ioutil.ReadFile`: a missing file fails with Go's "no such file" error. */
  function ReadTokenFile(files: map<string, Result<string, Error>>, path: string): (r: Result<string, Error>)
    ensures path in files ==> r == files[path]
    ensures path !in files ==> r.Err?
    ensures r.Ok? ==> path in files && files[path] == r
  {
    if path in files then files[path]
    else Err(Failure("open " + path + ": no such file or directory"))
  }

  /** The error returned for an auth method other than JWT. */
  function UnsupportedAuthMethod(authMethod: string): Error {
    Failure("unsupported Auth method: " + authMethod)
  }

  /** The returned payload (None for a nil `*vaultapi.Secret`), the error, and the calls made. */
  datatype FetchOutcome = FetchOutcome(data: Option<VaultResponse>, err: Option<Error>, calls: seq<Call>)

  /** The exchange `VaultReadSecret` performs, as a function of the configuration and the answers. */
  function Fetch(cfg: VaultConfig, v: VaultEnv): (o: FetchOutcome)
    ensures o.err.Some? ==> o.data.None?
    ensures o.data.Some? ==> v.read == Ok(o.data)
    ensures |o.calls| >= 1 && o.calls[0] == Connect(cfg.addr)
  {
    var connect := [Connect(cfg.addr)];
    if v.clientFault.Some? then
      FetchOutcome(None, v.clientFault, connect)
    else if cfg.authMethod != DefaultJwtAuthMethod then
      FetchOutcome(None, Some(UnsupportedAuthMethod(cfg.authMethod)), connect)
    else
      var file := JwtFile(v.env);
      var jwt := ReadTokenFile(v.files, file);
      var read := connect + [ReadFile(file)];
      if jwt.Err? then FetchOutcome(None, Some(jwt.error), read)
      else
        var login := read + [Login(LoginPath(cfg.authPath), jwt.value, cfg.role)];
        if v.login.Err? then FetchOutcome(None, Some(v.login.error), login)
        else
          var all := login + [ReadPath(cfg.path, v.login.value)];
          if v.read.Err? then FetchOutcome(None, Some(v.read.error), all)
          else FetchOutcome(v.read.value, None, all)
  }

  /** `VaultReadSecret`, step by step with early returns. */
  method VaultReadSecret(cfg: VaultConfig, v: VaultEnv) returns (data: Option<VaultResponse>, err: Option<Error>, calls: seq<Call>)
    ensures FetchOutcome(data, err, calls) == Fetch(cfg, v)
  {
    data, err := None, None;
    calls := [Connect(cfg.addr)];
    if v.clientFault.Some? {
      err := v.clientFault;
      return;
    }
    if cfg.authMethod != DefaultJwtAuthMethod {
      err := Some(UnsupportedAuthMethod(cfg.authMethod));
      return;
    }
    var jwtFile := DefaultJwtFile;
    if Getenv(v.env, TokenFileVar) != "" {
      jwtFile := Getenv(v.env, TokenFileVar);
    } else if Getenv(v.env, JwtFileVar) != "" {
      jwtFile := Getenv(v.env, JwtFileVar);
    }
    calls := calls + [ReadFile(jwtFile)];
    var jwt := ReadTokenFile(v.files, jwtFile);
    if jwt.Err? {
      err := Some(jwt.error);
      return;
    }
    calls := calls + [Login(LoginPath(cfg.authPath), jwt.value, cfg.role)];
    if v.login.Err? {
      err := Some(v.login.error);
      return;
    }
    var token := v.login.value;
    calls := calls + [ReadPath(cfg.path, token)];
    if v.read.Err? {
      err := Some(v.read.error);
      return;
    }
    data := v.read.value;
  }

  /** An auth method other than JWT fails before the token is read and before any login. */
  lemma FetchRejectsOtherMethods(cfg: VaultConfig, v: VaultEnv)
    requires v.clientFault.None? && cfg.authMethod != DefaultJwtAuthMethod
    ensures Fetch(cfg, v).err == Some(Failure("unsupported Auth method: " + cfg.authMethod))
    ensures Fetch(cfg, v).data.None?
    ensures NoVaultCalls(Fetch(cfg, v).calls[1..])
  {
  }

  /** A derived configuration always passes the method gate: the token file is read. */
  lemma DerivedConfigReadsToken(spec: VaultSecretSpec, v: VaultEnv)
    requires v.clientFault.None?
    ensures |Fetch(DeriveConfig(spec), v).calls| >= 2
    ensures Fetch(DeriveConfig(spec), v).calls[1] == ReadFile(JwtFile(v.env))
  {
  }

  /** A token that cannot be read fails the exchange with the read error, before any login. */
  lemma FetchTokenFailure(cfg: VaultConfig, v: VaultEnv)
    requires v.clientFault.None? && cfg.authMethod == DefaultJwtAuthMethod
    requires ReadTokenFile(v.files, JwtFile(v.env)).Err?
    ensures Fetch(cfg, v).err == Some(ReadTokenFile(v.files, JwtFile(v.env)).error)
    ensures Count(Fetch(cfg, v).calls, LoginCall) == 0 && Count(Fetch(cfg, v).calls, ReadPathCall) == 0
  {
  }

  /**
   * A failed login fails the exchange and no read is attempted; once the
   * login is reached, the error returned is the login's own.
   */
  lemma FetchLoginFailure(cfg: VaultConfig, v: VaultEnv)
    requires v.login.Err?
    ensures Fetch(cfg, v).err.Some? && Fetch(cfg, v).data.None?
    ensures Count(Fetch(cfg, v).calls, ReadPathCall) == 0
    ensures v.clientFault.None? && cfg.authMethod == DefaultJwtAuthMethod && ReadTokenFile(v.files, JwtFile(v.env)).Ok? ==>
      Fetch(cfg, v).err == Some(v.login.error)
  {
    FetchCallCounts(cfg, v);
  }

  /** A failed read after a successful login fails the exchange with the read's own error and no payload. */
  lemma FetchReadFailure(cfg: VaultConfig, v: VaultEnv)
    requires v.clientFault.None? && cfg.authMethod == DefaultJwtAuthMethod
    requires ReadTokenFile(v.files, JwtFile(v.env)).Ok? && v.login.Ok? && v.read.Err?
    ensures Fetch(cfg, v).err == Some(v.read.error) && Fetch(cfg, v).data.None?
    ensures Count(Fetch(cfg, v).calls, LoginCall) == 1 && Count(Fetch(cfg, v).calls, ReadPathCall) == 1
  {
    var t := Fetch(cfg, v).calls;
    assert t == [t[0], t[1], t[2], t[3]];
    ExchangeCounts(t);
  }

  /** One connection, at most one login and one read per exchange, a read only ever after a successful login, and no create. */
  lemma {:induction false} FetchCallCounts(cfg: VaultConfig, v: VaultEnv)
    ensures Count(Fetch(cfg, v).calls, ConnectCall) == 1
    ensures Count(Fetch(cfg, v).calls, ReadPathCall) <= Count(Fetch(cfg, v).calls, LoginCall) <= 1
    ensures Count(Fetch(cfg, v).calls, ReadPathCall) == 1 ==> v.login.Ok?
    ensures Count(Fetch(cfg, v).calls, CreateCall) == 0
  {
    var o := Fetch(cfg, v);
    var t := o.calls;
    assert t[0] == Connect(cfg.addr);
    assert |t| >= 2 ==> t[1].ReadFile?;
    assert |t| >= 3 ==> t[2].Login?;
    assert |t| >= 4 ==> t[3].ReadPath? && v.login.Ok?;
    assert |t| <= 4;
    assert |t| == 4 ==> t == [t[0], t[1], t[2], t[3]];
    assert |t| == 3 ==> t == [t[0], t[1], t[2]];
    assert |t| == 2 ==> t == [t[0], t[1]];
    assert |t| == 1 ==> t == [t[0]];
    ExchangeCounts(t);
  }

  /** The counts of the calls of a trace that has the shape of an exchange. */
  lemma ExchangeCounts(t: seq<Call>)
    requires 1 <= |t| <= 4 && t[0].Connect?
    requires |t| >= 2 ==> t[1].ReadFile?
    requires |t| >= 3 ==> t[2].Login?
    requires |t| >= 4 ==> t[3].ReadPath?
    ensures Count(t, ConnectCall) == 1
    ensures Count(t, LoginCall) == (if |t| >= 3 then 1 else 0)
    ensures Count(t, ReadPathCall) == (if |t| >= 4 then 1 else 0)
    ensures Count(t, CreateCall) == 0
  {
    if |t| > 1 {
      ExchangeCounts(t[..|t| - 1]);
    } else {
      assert t[..0] == [];
    }
  }

  /**
   * The login goes to `auth/{authPath}/login` with the JWT read from the token
   * file and the configured role; the read asks for the configured path with
   * the client token that login returned.
   */
  lemma FetchRequests(cfg: VaultConfig, v: VaultEnv, i: nat)
    requires i < |Fetch(cfg, v).calls|
    ensures Fetch(cfg, v).calls[i].Login? ==>
      Fetch(cfg, v).calls[i] == Login(LoginPath(cfg.authPath), ReadTokenFile(v.files, JwtFile(v.env)).value, cfg.role) &&
      ReadTokenFile(v.files, JwtFile(v.env)).Ok?
    ensures Fetch(cfg, v).calls[i].ReadPath? ==>
      Fetch(cfg, v).calls[i] == ReadPath(cfg.path, v.login.value) && v.login.Ok?
  {
  }

  /** The exchange succeeds exactly when every step does, and then returns what the read returned. */
  lemma FetchSucceeds(cfg: VaultConfig, v: VaultEnv)
    ensures Fetch(cfg, v).err.None? <==>
      v.clientFault.None? && cfg.authMethod == DefaultJwtAuthMethod &&
      ReadTokenFile(v.files, JwtFile(v.env)).Ok? && v.login.Ok? && v.read.Ok?
    ensures Fetch(cfg, v).err.None? ==> Fetch(cfg, v).data == v.read.value
  {
  }
}
