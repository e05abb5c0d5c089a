/**
 * Configuration read from the process environment (after the dotenv file is
 * loaded). An absent variable is a missing key. An empty required variable is
 * present but counts as unset, because the scripts test `if not value`; an
 * empty OSHIMA_API_URL is used as is.
 */
module Environment {

  type Env = map<string, string>

  /** The variables every script requires, in the order they are reported. */
  const RequiredNames: seq<string> :=
    ["SUPABASE_URL", "SUPABASE_ANON_KEY", "OSHIMA_EMAIL", "OSHIMA_PASSWORD"]

  const DefaultApiUrl: string := "http://127.0.0.1:8000"

  predicate IsSet(env: Env, name: string) {
    name in env && env[name] != ""
  }

  /** The entry one required name contributes to the report: itself when unset, nothing otherwise. */
  function Report(env: Env, name: string): seq<string> {
    if IsSet(env, name) then [] else [name]
  }

  /** The names of `names` that are unset in `env`, in the order of `names`. */
  function Unset(env: Env, names: seq<string>): (r: seq<string>)
    ensures |r| <= |names|
  {
    if names == [] then []
    else Unset(env, names[..|names| - 1]) + Report(env, names[|names| - 1])
  }

  /** A name is reported exactly when it is one of `names` and is unset. */
  lemma {:induction false} UnsetMembership(env: Env, names: seq<string>, name: string)
    ensures name in Unset(env, names) <==> name in names && !IsSet(env, name)
  {
    if names != [] {
      var init := names[..|names| - 1];
      UnsetMembership(env, init, name);
      assert names == init + [names[|names| - 1]];
    }
  }

  /** The list is empty exactly when every one of `names` is set. */
  lemma UnsetEmpty(env: Env, names: seq<string>)
    ensures Unset(env, names) == [] <==> forall n :: n in names ==> IsSet(env, n)
  {
    forall n ensures n in Unset(env, names) <==> n in names && !IsSet(env, n) {
      UnsetMembership(env, names, n);
    }
    if Unset(env, names) != [] {
      assert Unset(env, names)[0] in Unset(env, names);
    }
  }

  lemma UnsetSnoc(env: Env, names: seq<string>, name: string)
    ensures Unset(env, names + [name]) == Unset(env, names) + Report(env, name)
  {
    assert (names + [name])[..|names|] == names;
  }

  /** The report over RequiredNames, one name at a time. */
  lemma UnsetRequired(env: Env)
    ensures Unset(env, RequiredNames)
         == Report(env, "SUPABASE_URL") + Report(env, "SUPABASE_ANON_KEY")
            + Report(env, "OSHIMA_EMAIL") + Report(env, "OSHIMA_PASSWORD")
  {
    var n := RequiredNames;
    assert n[..0] == [];
    UnsetSnoc(env, n[..0], n[0]);
    assert n[..1] == n[..0] + [n[0]];
    UnsetSnoc(env, n[..1], n[1]);
    assert n[..2] == n[..1] + [n[1]];
    UnsetSnoc(env, n[..2], n[2]);
    assert n[..3] == n[..2] + [n[2]];
    UnsetSnoc(env, n[..3], n[3]);
    assert n == n[..3] + [n[3]];
  }

  /**
   * The `missing` list of each script's main: one append per required
   * variable that is unset, in the fixed order of RequiredNames.
   */
  method MissingConfig(env: Env) returns (missing: seq<string>)
    ensures missing == Unset(env, RequiredNames)
  {
    missing := [];
    if !IsSet(env, "SUPABASE_URL") {
      missing := missing + ["SUPABASE_URL"];
    }
    assert missing == Report(env, "SUPABASE_URL");
    if !IsSet(env, "SUPABASE_ANON_KEY") {
      missing := missing + ["SUPABASE_ANON_KEY"];
    }
    assert missing == Report(env, "SUPABASE_URL") + Report(env, "SUPABASE_ANON_KEY");
    if !IsSet(env, "OSHIMA_EMAIL") {
      missing := missing + ["OSHIMA_EMAIL"];
    }
    assert missing == Report(env, "SUPABASE_URL") + Report(env, "SUPABASE_ANON_KEY") + Report(env, "OSHIMA_EMAIL");
    if !IsSet(env, "OSHIMA_PASSWORD") {
      missing := missing + ["OSHIMA_PASSWORD"];
    }
    UnsetRequired(env);
  }

  /**
   * The pre-flight check: the script stops (exit status 1) exactly when some
   * required variable is unset, and then reports every unset one.
   */
  method Preflight(env: Env) returns (exits: bool, missing: seq<string>)
    ensures exits <==> exists n :: n in RequiredNames && !IsSet(env, n)
    ensures forall n :: n in missing <==> n in RequiredNames && !IsSet(env, n)
    ensures missing == Unset(env, RequiredNames)
  {
    missing := MissingConfig(env);
    exits := missing != [];
    UnsetEmpty(env, RequiredNames);
    forall n ensures n in missing <==> n in RequiredNames && !IsSet(env, n) {
      UnsetMembership(env, RequiredNames, n);
    }
  }

  /** OSHIMA_API_URL, or the loopback default when the variable is absent. */
  function ApiUrl(env: Env): (r: string)
    ensures "OSHIMA_API_URL" in env ==> r == env["OSHIMA_API_URL"]
    ensures "OSHIMA_API_URL" !in env ==> r == DefaultApiUrl
  {
    if "OSHIMA_API_URL" in env then env["OSHIMA_API_URL"] else DefaultApiUrl
  }
}
