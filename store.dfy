/** The flat JSON files under src/data. A file is either absent, blank
    (white space only), unparsable, or holds a parsed value; the readers give
    each route's documented default for the first three. Whether a write
    reaches the disk is an input to each writing operation; a failed write
    leaves the file as it was. */
module Store {
  import opened Records

  datatype Stored<T> = Missing | Blank | Malformed | Holds(value: T)

  /** `readData(file, default)`: the parsed content, or the default when the
      file is missing, blank or unparsable. The readers of the mapping,
      schedule and user files behave the same way. */
  function ReadOr<T>(f: Stored<T>, default: T): (v: T)
    ensures f.Holds? ==> v == f.value
    ensures !f.Holds? ==> v == default
  {
    if f.Holds? then f.value else default
  }

  /** The data directory: one cell per JSON file the application persists. */
  class DataDir {
    var schedules: Stored<seq<Schedule>>
    var supplements: Stored<seq<Supplement>>
    var mapping: Stored<map<string, int>>
    var led: Stored<string>
    var users: Stored<seq<User>>

    constructor (
      schedules: Stored<seq<Schedule>>,
      supplements: Stored<seq<Supplement>>,
      mapping: Stored<map<string, int>>,
      led: Stored<string>,
      users: Stored<seq<User>>)
      ensures this.schedules == schedules && this.supplements == supplements
      ensures this.mapping == mapping && this.led == led && this.users == users
    {
      this.schedules := schedules;
      this.supplements := supplements;
      this.mapping := mapping;
      this.led := led;
      this.users := users;
    }
  }
}
