/** The process environment as the buyers see it: the variables `os.getenv`
    returns after `.env` has been loaded, and whether a `.env` file exists in
    the working directory. */
module Environment {
  import opened Wrappers

  datatype Env = Env(vars: map<string, string>, dotenvExists: bool)

  /** `os.getenv(key)` */
  function GetEnv(env: Env, key: string): Option<string> {
    if key in env.vars then Some(env.vars[key]) else None
  }

  /** Python truthiness of an optional string: present and non-empty */
  predicate IsSet(v: Option<string>) {
    v.Some? && v.value != ""
  }

  /** Every one of `keys` is set to a non-empty value */
  predicate AllSet(env: Env, keys: seq<string>) {
    forall k :: 0 <= k < |keys| ==> IsSet(GetEnv(env, keys[k]))
  }

  /** Two keys are all set exactly when each of them is */
  lemma AllSetPair(env: Env, a: string, b: string)
    ensures AllSet(env, [a, b]) <==> IsSet(GetEnv(env, a)) && IsSet(GetEnv(env, b))
  {
    assert [a, b][0] == a && [a, b][1] == b;
  }

  /** Three keys are all set exactly when each of them is */
  lemma AllSetTriple(env: Env, a: string, b: string, c: string)
    ensures AllSet(env, [a, b, c]) <==> IsSet(GetEnv(env, a)) && IsSet(GetEnv(env, b)) && IsSet(GetEnv(env, c))
  {
    assert [a, b, c][0] == a && [a, b, c][1] == b && [a, b, c][2] == c;
  }
}
