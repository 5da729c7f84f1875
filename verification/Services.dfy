/** What the services share: the deployment's settings, and service calls seen
    as some reads followed by at most one statement. */
module Services {
  import opened Common
  import opened Tables
  import opened Reserved
  import opened Urls

  /** The deployment's configuration. Foreign code enters as functions: the
      explicit-word filter, IDNA, IP parsing, UTM tagging, query escaping and
      GeoIP. */
  datatype Config = Config(
    shortScheme: string, shortDomain: string, selfSource: string, autoApprove: bool,
    reserved: ReservedAliases,
    explicit: string -> bool,
    toAscii: string -> Option<string>,
    isIP: string -> bool,
    appendUtms: (string, Utms) -> string,
    queryEscape: string -> string,
    cityOf: string -> string)

  ghost predicate WellConfigured(c: Config) {
    HttpScheme(c.shortScheme) && CleanHost(c.shortDomain) && Nested(c.reserved)
  }

  /** A limits.Policy check: allowed, denied, or an internal failure. */
  datatype Policy = Allow | Deny | Broken

  /** What a call decides from its reads: an error, an existing row, or one
      statement with the error it answers when the statement is refused, and the
      one, if any, that it answers although the statement took effect. */
  datatype Plan =
    | Fail(error: Error)
    | Answer(id: int)
    | Write(stmt: Stmt, refused: Error, late: Option<Error> := None)

  /** The row a statement writes. */
  function Target(db: Db, s: Stmt): int {
    match s
    case InsertLink(_) => db.nextLink
    case UpdateCode(_, id, _) => id
    case UpdateConfig(_, id, _) => id
    case SetStatus(id, _) => id
    case RecordVisit(id, _) => id
    case InsertClick(click) => click.linkId
    case InsertPrefix(_, _, _) => db.nextPrefix
    case SetPrimaryPrefix(_, id) => id
    case DecidePrefix(id, _) => id
    case DeletePrefix(_, id) => id
    case ReleasePrefix(id) => id
    case InsertDomain(_, _, _) => db.nextDomain
    case SetVerified(_, id) => id
    case SetPrimaryDomain(_, id) => id
    case DeleteDomain(_, id) => id
  }

  /** A plan carried out at once, as an atomic service call does. */
  ghost function Perform(db: Db, plan: Plan): (Db, Result<int>) {
    match plan
    case Fail(e) => (db, Err(e))
    case Answer(id) => (db, Ok(id))
    case Write(s, refused, late) =>
      var (db', ok) := Exec(db, s);
      (db', if !ok then Err(refused) else if late.Some? then Err(late.value) else Ok(Target(db, s)))
  }

  /** Carries out a plan on the store. */
  method Commit(db: Database, s: Stmt, refused: Error, late: Option<Error> := None) returns (r: Result<int>)
    requires db.Valid()
    modifies db
    ensures db.Valid()
    ensures (db.View(), r) == Perform(old(db.View()), Write(s, refused, late))
  {
    var id := Target(Db(db.links, db.nextLink, db.prefixes, db.nextPrefix, db.domains, db.nextDomain, db.clicks), s);
    var ok := db.Run(s);
    r := if !ok then Err(refused) else if late.Some? then Err(late.value) else Ok(id);
  }
}
