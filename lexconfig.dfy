/**
 * Database settings of the lexicon service: the process environment, the
 * optional `.env` file merged into it at start-up, and the Postgres URLs of
 * the QA and RAG databases derived from it.
 */
module LexConfig {
  import opened Text

  /** The process environment: a variable is either absent or holds a string. */
  type Env = map<string, string>

  const QaKey := "QA_DATABASE_URL"
  const RagKey := "RAG_DATABASE_URL"
  const DatabaseKey := "DATABASE_URL"
  /** The variables a `.env` file may not clobber, in the order they are restored. */
  const PreservedKeys: seq<string> := [QaKey, RagKey]

  const AsyncScheme := "postgresql+asyncpg://"
  const Scheme := "postgresql://"
  const TimeoutSuffix := "?connect_timeout=5"

  // ------------------------------------------------------------ .env loading

  /** A pre-set variable survives the `.env` override when it holds a non-empty value. */
  predicate Preserved(env: Env, k: string)
  {
    k in PreservedKeys && k in env && env[k] != ""
  }

  /**
   * The environment after start-up. `None` stands for a missing `.env` file
   * or a missing `dotenv` package, which both leave the environment as it is;
   * otherwise the file's variables override the environment, except the
   * preserved ones.
   */
  function LoadedEnv(env: Env, dotenv: Option<Env>): Env
  {
    if dotenv.None? then env
    else
      map k | k in env.Keys + dotenv.value.Keys ::
        if Preserved(env, k) then env[k]
        else if k in dotenv.value then dotenv.value[k]
        else env[k]
  }

  /**
   * Each variable after loading: a preserved one keeps its value, any other
   * the file sets takes the file's value, and the rest are untouched; no
   * variable disappears and none appears that neither side had.
   */
  lemma LoadedEnvSpec(env: Env, dotenv: Option<Env>, k: string)
    ensures k in LoadedEnv(env, dotenv) <==> k in env || (dotenv.Some? && k in dotenv.value)
    ensures Preserved(env, k) ==> LoadedEnv(env, dotenv)[k] == env[k]
    ensures dotenv.Some? && k in dotenv.value && !Preserved(env, k) ==> LoadedEnv(env, dotenv)[k] == dotenv.value[k]
    ensures k in env && (dotenv.None? || k !in dotenv.value) ==> LoadedEnv(env, dotenv)[k] == env[k]
  {
  }

  /** The process environment as a mutable object, as `os.environ` is. */
  class Environment {
    var vars: Env

    constructor (initial: Env)
      ensures vars == initial
    {
      vars := initial;
    }

    /**
     * `_load_env`: remember the non-empty preserved variables, let the file
     * override everything, then write the remembered values back.
     */
    method LoadEnv(dotenv: Option<Env>)
      modifies this
      ensures vars == LoadedEnv(old(vars), dotenv)
    {
      if dotenv.None? {
        return;
      }
      var env := vars;
      var preserve := map k | k in PreservedKeys && k in env && env[k] != "" :: env[k];
      vars := env + dotenv.value;
      assert PreservedKeys[..0] == [];
      var i := 0;
      while i < |PreservedKeys|
        invariant 0 <= i <= |PreservedKeys|
        invariant vars == Restored(env + dotenv.value, env, PreservedKeys[..i])
      {
        var k := PreservedKeys[i];
        assert PreservedKeys[..i + 1] == PreservedKeys[..i] + [k];
        RestoredStep(env + dotenv.value, env, PreservedKeys[..i], k);
        if k in preserve {
          vars := vars[k := preserve[k]];
        }
        i := i + 1;
      }
      assert PreservedKeys[..i] == PreservedKeys;
      RestoredIsLoaded(env, dotenv.value);
    }
  }

  /** `m` with the non-empty values `env` holds for `keys` written back, one key after the other. */
  function Restored(m: Env, env: Env, keys: seq<string>): Env
    decreases |keys|
  {
    if keys == [] then m
    else
      var k := keys[|keys| - 1];
      var r := Restored(m, env, keys[..|keys| - 1]);
      if k in env && env[k] != "" then r[k := env[k]] else r
  }

  lemma RestoredStep(m: Env, env: Env, keys: seq<string>, k: string)
    ensures Restored(m, env, keys + [k])
      == if k in env && env[k] != "" then Restored(m, env, keys)[k := env[k]] else Restored(m, env, keys)
  {
    assert (keys + [k])[..|keys|] == keys;
  }

  /** After writing back, a key holds the remembered value when it has one, else what `m` held. */
  lemma {:induction false} RestoredSpec(m: Env, env: Env, keys: seq<string>, k: string)
    ensures k in Restored(m, env, keys) <==> k in m || (k in keys && k in env && env[k] != "")
    ensures k in Restored(m, env, keys) ==>
      Restored(m, env, keys)[k] == if k in keys && k in env && env[k] != "" then env[k] else m[k]
    decreases |keys|
  {
    if keys != [] {
      var init := keys[..|keys| - 1];
      RestoredSpec(m, env, init, k);
      assert keys == init + [keys[|keys| - 1]];
    }
  }

  /** Writing the preserved variables back after the override gives the loaded environment. */
  lemma RestoredIsLoaded(env: Env, file: Env)
    ensures Restored(env + file, env, PreservedKeys) == LoadedEnv(env, Some(file))
  {
    var r := Restored(env + file, env, PreservedKeys);
    var l := LoadedEnv(env, Some(file));
    forall k ensures (k in r <==> k in l) && (k in r ==> r[k] == l[k]) {
      RestoredSpec(env + file, env, PreservedKeys, k);
      LoadedEnvSpec(env, Some(file), k);
    }
  }

  // --------------------------------------------------------------- settings

  /** `_env(key, default)`: the variable when set and non-empty, else the default, stripped. */
  function EnvOr(env: Env, key: string, default: string): string
  {
    Trim(if key in env && env[key] != "" then env[key] else default)
  }

  /** `_env(key, default) or default` */
  function Setting(env: Env, key: string, default: string): string
  {
    var v := EnvOr(env, key, default);
    if v != "" then v else default
  }

  /** A variable counts as set when it holds something besides whitespace. */
  predicate IsSet(env: Env, key: string) { key in env && Trim(env[key]) != "" }

  /** The connection settings `_build_pg_url` reads. */
  datatype PgConn = PgConn(user: string, password: string, host: string, port: string)

  function PgSettings(env: Env): PgConn
  {
    PgConn(Setting(env, "POSTGRES_USER", "postgres"), EnvOr(env, "POSTGRES_PASSWORD", ""),
           Setting(env, "POSTGRES_HOST", "127.0.0.1"), Setting(env, "POSTGRES_PORT", "5432"))
  }

  /** A setting is the stripped variable when that is non-blank, otherwise its default. */
  lemma SettingSpec(env: Env, key: string, default: string)
    requires Trim(default) == default
    ensures IsSet(env, key) ==> Setting(env, key, default) == Trim(env[key])
    ensures !IsSet(env, key) ==> Setting(env, key, default) == default
    ensures default != "" ==> Setting(env, key, default) != ""
    ensures Trim(Setting(env, key, default)) == Setting(env, key, default)
  {
    if key in env {
      TrimIdempotent(env[key]);
    }
  }

  /**
   * User, host and port are never empty and fall back to `postgres`,
   * `127.0.0.1` and `5432`; the password is empty when not set. Every
   * setting is stripped.
   */
  lemma PgSettingsSpec(env: Env)
    ensures var c := PgSettings(env);
      c.user != "" && c.host != "" && c.port != ""
      && (!IsSet(env, "POSTGRES_USER") ==> c.user == "postgres")
      && (IsSet(env, "POSTGRES_USER") ==> c.user == Trim(env["POSTGRES_USER"]))
      && (!IsSet(env, "POSTGRES_HOST") ==> c.host == "127.0.0.1")
      && (!IsSet(env, "POSTGRES_PORT") ==> c.port == "5432")
      && (c.password != "" <==> IsSet(env, "POSTGRES_PASSWORD"))
      && Trim(c.user) == c.user && Trim(c.password) == c.password
      && Trim(c.host) == c.host && Trim(c.port) == c.port
  {
    SettingSpec(env, "POSTGRES_USER", "postgres");
    SettingSpec(env, "POSTGRES_PASSWORD", "");
    SettingSpec(env, "POSTGRES_HOST", "127.0.0.1");
    SettingSpec(env, "POSTGRES_PORT", "5432");
  }

  // -------------------------------------------------------------------- URLs

  /** The URL for connection settings `c` and database `db`; `user:password@` only with a password. */
  function PgUrl(c: PgConn, db: string): (r: string)
    ensures IsPrefix(Scheme, r) && IsSuffix(TimeoutSuffix, r)
  {
    Scheme + c.user + (if c.password != "" then ":" + c.password else "") + "@"
      + c.host + ":" + c.port + "/" + db + TimeoutSuffix
  }

  /** `_build_pg_url(db)` */
  function BuildPgUrl(env: Env, db: string): string
  {
    PgUrl(PgSettings(env), db)
  }

  /** `qa_url()` */
  function QaUrl(env: Env): string
  {
    var u := EnvOr(env, QaKey, "");
    if u != "" then u else BuildPgUrl(env, "mobius_qa")
  }

  /** `rag_url()` */
  function RagUrl(env: Env): string
  {
    var u := EnvOr(env, RagKey, "");
    if u != "" then u
    else
      var d := EnvOr(env, DatabaseKey, "");
      if d != "" then Replace(d, AsyncScheme, Scheme) else BuildPgUrl(env, "mobius_rag")
  }

  /** The QA URL is the stripped `QA_DATABASE_URL` when set, else the built `mobius_qa` URL. */
  lemma QaUrlChoice(env: Env)
    ensures IsSet(env, QaKey) ==> QaUrl(env) == Trim(env[QaKey])
    ensures !IsSet(env, QaKey) ==> QaUrl(env) == BuildPgUrl(env, "mobius_qa")
  {
  }

  /**
   * The RAG URL tries `RAG_DATABASE_URL`, then `DATABASE_URL` with the async
   * driver scheme rewritten (a URL starting with it ends up starting with the
   * plain scheme), then the built `mobius_rag` URL.
   */
  lemma RagUrlChoice(env: Env)
    ensures IsSet(env, RagKey) ==> RagUrl(env) == Trim(env[RagKey])
    ensures !IsSet(env, RagKey) && IsSet(env, DatabaseKey) ==>
      RagUrl(env) == Replace(Trim(env[DatabaseKey]), AsyncScheme, Scheme)
    ensures !IsSet(env, RagKey) && IsSet(env, DatabaseKey) && IsPrefix(AsyncScheme, Trim(env[DatabaseKey])) ==>
      IsPrefix(Scheme, RagUrl(env))
    ensures !IsSet(env, RagKey) && !IsSet(env, DatabaseKey) ==> RagUrl(env) == BuildPgUrl(env, "mobius_rag")
  {
  }

  /** A QA URL set before start-up is the one used, whatever the `.env` file says. */
  lemma QaUrlSurvivesLoad(env: Env, dotenv: Option<Env>)
    requires IsSet(env, QaKey)
    ensures QaUrl(LoadedEnv(env, dotenv)) == QaUrl(env)
  {
    LoadedEnvSpec(env, dotenv, QaKey);
    QaUrlChoice(env);
    QaUrlChoice(LoadedEnv(env, dotenv));
  }

  /** A RAG URL set before start-up is the one used, whatever the `.env` file says. */
  lemma RagUrlSurvivesLoad(env: Env, dotenv: Option<Env>)
    requires IsSet(env, RagKey)
    ensures RagUrl(LoadedEnv(env, dotenv)) == RagUrl(env)
  {
    LoadedEnvSpec(env, dotenv, RagKey);
    RagUrlChoice(env);
    RagUrlChoice(LoadedEnv(env, dotenv));
  }
}
