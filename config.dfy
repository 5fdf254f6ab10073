/** The fixed connection settings and names of the import script (import.py:10-17). */
module Config {
  const DbHost: string := "localhost"
  const DbPort: string := "5433"
  const DbName: string := "geoserver"
  const DbUser: string := "postgres"
  const DbPassword: string := "postgres"

  /** Name of the input file looked up beside the script. */
  const InputFileName: string := "GisTPI"

  /** Destination table of the GeoPackage import. */
  const ImportTable: string := "GisTPI_import"

  /** The connection flags shared by every psql and pg_restore command line. */
  const ConnectionArgs: seq<string> := ["-h", DbHost, "-p", DbPort, "-U", DbUser, "-d", DbName]

  /**
   * A psql command line against the configured database: the tool, the
   * connection flags, then one option with its argument (`-c sql` for a
   * statement, `-f file` for a script).
   */
  function PsqlArgv(tool: string, flag: string, arg: string): (argv: seq<string>)
    ensures |argv| == 11 && argv[0] == tool && argv[1..9] == ConnectionArgs
    ensures argv[9] == flag && argv[10] == arg
  {
    [tool] + ConnectionArgs + [flag, arg]
  }
}
