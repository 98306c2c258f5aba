/** The backend base URL (`BACKEND_URL`), computed from the environment's value. */
module Config {
  import opened Wrappers
  import opened Strings

  /**
   * An unset or empty base gives "", a base ending in '/' is kept, any other
   * base gets one '/' appended.
   */
  function BackendUrl(env: Option<string>): (url: string)
    ensures env.None? || env == Some("") ==> url == ""
    ensures env.Some? && env.value != "" ==>
      && StartsWith(url, env.value)
      && EndsWith(url, "/")
      && |env.value| <= |url| <= |env.value| + 1
    ensures env.Some? && EndsWith(env.value, "/") ==> url == env.value
  {
    var base := if env.Some? then env.value else "";
    if base == "" then ""
    else if EndsWith(base, "/") then base
    else base + "/"
  }

  /** Applying the rule to its own output changes nothing. */
  lemma BackendUrlIdempotent(env: Option<string>)
    ensures BackendUrl(Some(BackendUrl(env))) == BackendUrl(env)
  {
  }
}
