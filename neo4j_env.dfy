/** The store credentials read from the environment (NEO4J_URI, NEO4J_USER, NEO4J_PASSWORD). */
module Neo4jEnv {
  import opened Wrappers

  /** The three variables as `os.getenv` returns them: absent, or a (possibly empty) string. */
  datatype Env = Env(uri: Option<string>, user: Option<string>, password: Option<string>)

  /** Python truthiness of an optional string: present and non-empty. */
  predicate Truthy(v: Option<string>) {
    v.Some? && v.value != ""
  }

  /** `all([uri, user, pwd])`: every credential is set to a non-empty string. */
  predicate CredentialsPresent(env: Env) {
    Truthy(env.uri) && Truthy(env.user) && Truthy(env.password)
  }
}
