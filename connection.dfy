/** `get_connection`: the database backend chosen by the DB_MODE setting. */
module Connection {
  import opened Results

  /** Used when the DB_MODE environment variable is not set. */
  const FallbackDbMode: string := "local"

  /** `os.environ.get("DB_MODE", "local")`, read once when the handler module loads. */
  function DbMode(dbModeVar: Option<string>): (mode: string)
    ensures dbModeVar.Some? ==> mode == dbModeVar.value
    ensures dbModeVar.None? ==> mode == FallbackDbMode
  {
    dbModeVar.GetOr(FallbackDbMode)
  }

  /** The two database backends behind one connection interface. */
  datatype Backend = Local | MySql

  /** The ValueError raised for any other mode, with its message. */
  datatype ConfigError = InvalidDbMode(message: string)

  /** The dispatch of lines 66-71: exactly "local" and "mysql" select a backend; every other mode is an error. */
  function SelectBackend(mode: string): (r: Result<Backend, ConfigError>)
    ensures r == Ok(Local) <==> mode == "local"
    ensures r == Ok(MySql) <==> mode == "mysql"
    ensures r.Err? <==> mode != "local" && mode != "mysql"
    ensures r.Err? ==> r.error.message == "Invalid DB_MODE: " + mode
  {
    if mode == "local" then Ok(Local)
    else if mode == "mysql" then Ok(MySql)
    else Err(InvalidDbMode("Invalid DB_MODE: " + mode))
  }

  /** With DB_MODE unset the local backend is used. */
  lemma UnsetModeIsLocal()
    ensures SelectBackend(DbMode(None)) == Ok(Local)
  {
  }
}
