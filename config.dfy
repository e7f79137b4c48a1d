/** Process-wide settings read by the token code: signing secret, algorithm and the two
    token lifetimes in minutes, with the defaults of `Settings` in src/core/config.py. */
module Config {

  const DEFAULT_ALGORITHM := "HS256"
  const DEFAULT_ACCESS_TOKEN_EXPIRES_MINUTES := 24 * 60
  const DEFAULT_REFRESH_TOKEN_EXPIRES_MINUTES := 15 * 24 * 60

  /** The secret has no default: it must come from the environment. */
  datatype Settings = Settings(
    secretKey: string,
    algorithm: string := DEFAULT_ALGORITHM,
    accessTokenExpiresMinutes: int := DEFAULT_ACCESS_TOKEN_EXPIRES_MINUTES,
    refreshTokenExpiresMinutes: int := DEFAULT_REFRESH_TOKEN_EXPIRES_MINUTES)

  /** Settings built from the environment when only the secret is given. */
  function DefaultSettings(secretKey: string): (s: Settings)
    ensures s.secretKey == secretKey && s.algorithm == "HS256"
    ensures s.accessTokenExpiresMinutes == 1440 && s.refreshTokenExpiresMinutes == 21600
  {
    Settings(secretKey)
  }

  /** With the defaults an access token lives one day and a refresh token fifteen days. */
  lemma DefaultAccessShorterThanRefresh(secretKey: string)
    ensures 0 < DefaultSettings(secretKey).accessTokenExpiresMinutes
              < DefaultSettings(secretKey).refreshTokenExpiresMinutes
  {
  }
}
