/**
 * The server launcher (primitive/backend/app.py): the environment variables
 * it reads, `strtobool`, and the rule that hot reload runs a single worker.
 * The environment is a map from variable name to value; starting uvicorn
 * itself is left out, the chosen settings are the result.
 */
module Launcher {
  import opened Wrappers
  import opened Text

  /** The spellings `strtobool` accepts as true, after stripping and lower-casing. */
  const TrueWords: set<string> := {"1", "true", "yes", "y", "on"}

  /** `strtobool(value)`; `None` is false. */
  function StrToBool(value: Option<string>): (b: bool)
    ensures value.None? ==> !b
  {
    match value
    case None => false
    case Some(s) => Lower(Strip(s)) in TrueWords
  }

  /** Two values that differ only in letter case read the same. */
  lemma StrToBoolIgnoresCase(s: string, t: string)
    requires Lower(s) == Lower(t)
    ensures StrToBool(Some(s)) == StrToBool(Some(t))
  {
    LowerStripCommute(s);
    LowerStripCommute(t);
  }

  /** Whitespace around a value does not change how it reads. */
  lemma StrToBoolIgnoresPadding(pre: string, s: string, post: string)
    requires AllSpace(pre) && AllSpace(post)
    ensures StrToBool(Some(pre + s + post)) == StrToBool(Some(s))
  {
    StripIgnoresPadding(pre, s, post);
  }

  /** No true spelling starts or ends with whitespace. */
  lemma TrueWordsUnpadded(w: string)
    requires w in TrueWords
    ensures |w| > 0 && !IsSpace(w[0]) && !IsSpace(w[|w| - 1])
  {
  }

  /** Letter case never turns a whitespace character into a non-whitespace one, or back. */
  lemma LowerCharKeepsSpace(c: char)
    ensures IsSpace(LowerChar(c)) == IsSpace(c)
  {
  }

  /** Any padding around any letter-case variant of a true spelling reads as true. */
  lemma StrToBoolAccepts(pre: string, w: string, post: string)
    requires AllSpace(pre) && AllSpace(post) && Lower(w) in TrueWords
    ensures StrToBool(Some(pre + w + post))
  {
    var lw := Lower(w);
    TrueWordsUnpadded(lw);
    LowerCharKeepsSpace(w[0]);
    LowerCharKeepsSpace(w[|w| - 1]);
    assert LStrip(w) == w;
    assert RStrip(w) == w;
    StripIgnoresPadding(pre, w, post);
  }

  /** A value that reads as true is padding around a letter-case variant of a true spelling. */
  lemma StrToBoolOnlyAccepts(s: string)
    requires StrToBool(Some(s))
    ensures exists pre, w, post :: AllSpace(pre) && AllSpace(post) && Lower(w) in TrueWords && s == pre + w + post
  {
    var pre, w, post := StripParts(s);
    assert AllSpace(pre) && AllSpace(post) && Lower(w) in TrueWords && s == pre + w + post;
  }

  /** `os.getenv(name, default)`. */
  function GetEnv(env: map<string, string>, name: string, default: string): (v: string)
    ensures name in env ==> v == env[name]
    ensures name !in env ==> v == default
  {
    if name in env then env[name] else default
  }

  /**
   * Only the named variable matters, and a variable set to the empty
   * string is read as empty, not replaced by the default.
   */
  lemma GetEnvReadsOnlyName(env: map<string, string>, other: map<string, string>, name: string, default: string)
    requires (name in env <==> name in other) && (name in env ==> env[name] == other[name])
    ensures GetEnv(env, name, default) == GetEnv(other, name, default)
    ensures GetEnv(env[name := ""], name, default) == ""
  {
  }

  /** Whether `main` turns hot reload on. */
  predicate ReloadEnabled(env: map<string, string>) {
    Lower(GetEnv(env, "APP_ENV", "")) == "development" || StrToBool(Some(GetEnv(env, "RELOAD", "false")))
  }

  /** The arguments `main` hands to `uvicorn.run`. */
  datatype ServerConfig = ServerConfig(host: string, port: int, reload: bool, workers: int, logLevel: string)

  /**
   * `main` up to the call of `uvicorn.run`. `int()` on `APP_PORT` or
   * `WORKERS` raises for a value that is not an integer; `WORKERS` is
   * parsed even when reload then overrides it.
   */
  method LaunchConfig(env: map<string, string>) returns (r: Result<ServerConfig, string>)
    ensures var port, workers := ParseInt(GetEnv(env, "APP_PORT", "8000")), ParseInt(GetEnv(env, "WORKERS", "2"));
      && (port.None? ==> r == Failure(IntError(GetEnv(env, "APP_PORT", "8000"))))
      && (port.Some? && workers.None? ==> r == Failure(IntError(GetEnv(env, "WORKERS", "2"))))
      && (port.Some? && workers.Some? ==> r.Success? && r.value.port == port.value)
    ensures r.Success? ==>
      && r.value.host == GetEnv(env, "APP_HOST", "0.0.0.0")
      && r.value.logLevel == GetEnv(env, "LOG_LEVEL", "info")
      && (r.value.reload <==> ReloadEnabled(env))
    ensures r.Success? && r.value.reload ==> r.value.workers == 1
    ensures r.Success? && !r.value.reload ==> r.value.workers == ParseInt(GetEnv(env, "WORKERS", "2")).value
  {
    var host := GetEnv(env, "APP_HOST", "0.0.0.0");
    var portText := GetEnv(env, "APP_PORT", "8000");
    var port := ParseInt(portText);
    if port.None? {
      return Failure(IntError(portText));
    }
    var reloadEnabled := Lower(GetEnv(env, "APP_ENV", "")) == "development" || StrToBool(Some(GetEnv(env, "RELOAD", "false")));
    var workersText := GetEnv(env, "WORKERS", "2");
    var workers := ParseInt(workersText);
    if workers.None? {
      return Failure(IntError(workersText));
    }
    var count := workers.value;
    if reloadEnabled {
      count := 1;
    }
    var logLevel := GetEnv(env, "LOG_LEVEL", "info");
    r := Success(ServerConfig(host, port.value, reloadEnabled, count, logLevel));
  }

  /** `APP_ENV` spelling `development` in any letter case turns reload on, whatever `RELOAD` says. */
  lemma DevelopmentReloads(env: map<string, string>)
    requires "APP_ENV" in env && Lower(env["APP_ENV"]) == "development"
    ensures ReloadEnabled(env)
  {
  }

  /** The default `RELOAD` value `false` has no padding and no capitals. */
  lemma FalseIsPlain()
    ensures Strip("false") == "false" && Lower("false") == "false"
  {
    assert !IsSpace("false"[0]) && !IsSpace("false"[4]);
    assert LStrip("false") == "false";
  }

  /** The default `RELOAD` value reads as false. */
  lemma FalseReadsFalse()
    ensures !StrToBool(Some("false"))
  {
    FalseIsPlain();
  }

  /** With neither variable set, reload stays off. */
  lemma ReloadOffByDefault(env: map<string, string>)
    requires "APP_ENV" !in env && "RELOAD" !in env
    ensures !ReloadEnabled(env)
  {
    FalseReadsFalse();
    assert Lower("") == "";
  }
}
