/** Server-side configuration lookup: the variable name with its first
    `VITE_` removed, read from the process environment. */
module ServerEnv {
  import opened Wrappers
  import opened Text

  const VitePrefix := "VITE_"
  const MissingPrefix := "Missing required environment variable: "

  /** `key.replace('VITE_', '')`: the first occurrence of `VITE_`, wherever it
      is, is cut out; a key without one is used as it is. */
  function ServerKey(key: string): (r: string)
    ensures IndexOf(key, VitePrefix).None? ==> r == key
    ensures IndexOf(key, VitePrefix).Some? ==>
      var i := IndexOf(key, VitePrefix).value;
      |r| == |key| - |VitePrefix| && r[..i] == key[..i] && r[i..] == key[i + |VitePrefix|..]
  {
    ReplaceFirst(key, VitePrefix, "")
  }

  /** Cutting the first `VITE_` out of `VITE_` followed by a name gives back
      the name, whatever it contains; in particular `VITE_VITE_X` becomes
      `VITE_X`, since only one occurrence is removed. */
  lemma ServerKeyOfPrefixed(name: string)
    ensures ServerKey(VitePrefix + name) == name
  {
    var key := VitePrefix + name;
    assert OccursAt(key, VitePrefix, 0);
    assert key[|VitePrefix|..] == name;
  }

  lemma ServerKeyKeepsOneVite()
    ensures ServerKey("VITE_VITE_X") == "VITE_X"
  {
    ServerKeyOfPrefixed("VITE_X");
    assert VitePrefix + "VITE_X" == "VITE_VITE_X";
  }

  /** `getServerEnv(key)`: the value of the rewritten name when it is set and
      not empty; otherwise an Error whose message names the rewritten key. */
  function GetServerEnv(env: map<string, string>, key: string): (r: Result<string, string>)
    ensures r.Success? <==> ServerKey(key) in env && env[ServerKey(key)] != ""
    ensures r.Success? ==> r.value == env[ServerKey(key)]
    ensures r.Failure? ==> r.error == MissingPrefix + ServerKey(key)
  {
    var serverKey := ServerKey(key);
    if serverKey !in env || env[serverKey] == "" then Failure(MissingPrefix + serverKey)
    else Success(env[serverKey])
  }

  /** The failure message ends with the name that was looked up. */
  lemma FailureNamesServerKey(env: map<string, string>, key: string)
    requires GetServerEnv(env, key).Failure?
    ensures var m := GetServerEnv(env, key).error;
      OccursAt(m, ServerKey(key), |m| - |ServerKey(key)|)
  {
    var m := GetServerEnv(env, key).error;
    assert m[|m| - |ServerKey(key)|..] == ServerKey(key);
  }
}

/** Browser-side configuration: the two Supabase settings, read from the
    build-time `VITE_` variables. */
module BrowserEnv {
  import opened Wrappers
  import opened Text
  import ServerEnv

  /** The only two names `getEnvVar` accepts. */
  datatype EnvKey = SupabaseUrl | SupabaseAnonKey

  function KeyName(k: EnvKey): string {
    match k
    case SupabaseUrl => "SUPABASE_URL"
    case SupabaseAnonKey => "SUPABASE_ANON_KEY"
  }

  /** The build-time variable each setting is read from. */
  function ViteName(k: EnvKey): string {
    ServerEnv.VitePrefix + KeyName(k)
  }

  /** The `env` object: each setting is the build-time variable, absent when
      the variable is not defined. */
  function Settings(vars: map<string, string>, k: EnvKey): Option<string> {
    if ViteName(k) in vars then Some(vars[ViteName(k)]) else None
  }

  /** `getEnvVar(key)`: the setting when it is defined and not empty;
      otherwise an Error whose message names the key. */
  function GetEnvVar(vars: map<string, string>, key: EnvKey): (r: Result<string, string>)
    ensures r.Success? <==> ViteName(key) in vars && vars[ViteName(key)] != ""
    ensures r.Success? ==> r.value == vars[ViteName(key)]
    ensures r.Failure? ==> r.error == ServerEnv.MissingPrefix + KeyName(key)
  {
    match Settings(vars, key)
    case Some(v) => if v == "" then Failure(ServerEnv.MissingPrefix + KeyName(key)) else Success(v)
    case None => Failure(ServerEnv.MissingPrefix + KeyName(key))
  }

  /** The server reads the same setting under the unprefixed name: given the
      browser's variable name it looks up `KeyName`, so the server variable
      `SUPABASE_URL` stands for the browser's `VITE_SUPABASE_URL`. */
  lemma ServerReadsUnprefixedName(k: EnvKey, env: map<string, string>)
    ensures ServerEnv.ServerKey(ViteName(k)) == KeyName(k)
    ensures ServerEnv.GetServerEnv(env, ViteName(k)).Success? <==> KeyName(k) in env && env[KeyName(k)] != ""
  {
    ServerEnv.ServerKeyOfPrefixed(KeyName(k));
  }

  /** The two settings are read from different variables. */
  lemma SettingsAreDistinct()
    ensures ViteName(SupabaseUrl) != ViteName(SupabaseAnonKey)
  {
    assert |ViteName(SupabaseUrl)| != |ViteName(SupabaseAnonKey)|;
  }
}
