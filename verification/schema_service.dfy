/** The registry of table layouts the front end asks for by name. */
module Schemas {
  import opened Wrappers

  datatype ColumnType = Str | Number | Date | Player | Role | Status

  datatype Column = Column(key: string, title: string, kind: ColumnType)

  datatype TableSchema = TableSchema(columns: seq<Column>)

  datatype SchemaError = AlreadyExists(name: string) | NotExists(name: string)

  function Message(e: SchemaError): string
  {
    match e
    case AlreadyExists(n) => "Schema " + n + " already exists"
    case NotExists(n) => "Schema " + n + " is not exists"
  }

  const Users: TableSchema := TableSchema([
    Column("player", "ФИО Игрока", Player),
    Column("gamesCount", "Количество сыгранных игр", Number),
    Column("winsCount", "Количество побед", Number)])

  const AdminUsers: TableSchema := TableSchema([
    Column("player", "ФИО Игрока", Player),
    Column("gamesCount", "Количество сыгранных игр", Number),
    Column("winsCount", "Количество побед", Number),
    Column("role", "Роль", Role),
    Column("status", "Статус", Status)])

  const MatchesHistory: TableSchema := TableSchema([
    Column("id", "ID матча", Str),
    Column("date", "Дата", Date),
    Column("player1", "Игрок 1", Player),
    Column("player2", "Игрок 2", Player),
    Column("score", "Счет", Str),
    Column("winner", "Победитель", Player),
    Column("type", "Тип игры", Str)])

  const UserMatchesHistory: TableSchema := TableSchema([
    Column("id", "ID матча", Str),
    Column("date", "Дата", Date),
    Column("opponent", "Противник", Player),
    Column("score", "Счет", Str),
    Column("winner", "Победитель", Player),
    Column("type", "Тип игры", Str)])

  const MatchWithSets: TableSchema := TableSchema([
    Column("player", "Игрок", Player),
    Column("s1", "П1", Number),
    Column("s2", "П2", Number),
    Column("s3", "П3", Number),
    Column("s4", "П4", Number),
    Column("s5", "П5", Number),
    Column("score", "Счет", Str)])

  /** The five layouts registered at start-up, by name. */
  function Builtin(): map<string, TableSchema>
  {
    map["users" := Users, "admin-users" := AdminUsers, "matches-history" := MatchesHistory,
        "user-matches-history" := UserMatchesHistory, "match-with-sets" := MatchWithSets]
  }

  /** The registry holds the five built-in layouts with 3, 5, 7, 6 and 7
      columns, and nothing for "top-players", a name the schema route
      accepts. */
  lemma BuiltinLayouts()
    ensures Builtin().Keys == {"users", "admin-users", "matches-history", "user-matches-history", "match-with-sets"}
    ensures |Builtin()["users"].columns| == 3
    ensures |Builtin()["admin-users"].columns| == 5
    ensures |Builtin()["matches-history"].columns| == 7
    ensures |Builtin()["user-matches-history"].columns| == 6
    ensures |Builtin()["match-with-sets"].columns| == 7
    ensures "top-players" !in Builtin()
  {
  }

  class SchemaService {
    var schemas: map<string, TableSchema>

    /** Registers the five built-in layouts; none of the registrations
        fails because their names differ. */
    constructor ()
      ensures schemas == Builtin()
    {
      schemas := map[];
      new;
      var ok := Register("users", Users);
      ok := Register("admin-users", AdminUsers);
      ok := Register("matches-history", MatchesHistory);
      ok := Register("user-matches-history", UserMatchesHistory);
      ok := Register("match-with-sets", MatchWithSets);
    }

    /** `register`: a taken name raises and leaves the registry as it was;
        a new one adds exactly that entry. */
    method Register(name: string, schema: TableSchema) returns (r: Result<(), SchemaError>)
      modifies this
      ensures old(name in schemas) ==> r == Err(AlreadyExists(name)) && schemas == old(schemas)
      ensures old(name !in schemas) ==> r == Ok(()) && schemas == old(schemas)[name := schema]
    {
      if name in schemas {
        return Err(AlreadyExists(name));
      }
      schemas := schemas[name := schema];
      r := Ok(());
    }

    /** `get`: the registered layout, or an error for an unknown name. */
    method Get(name: string) returns (r: Result<TableSchema, SchemaError>)
      ensures name in schemas ==> r == Ok(schemas[name])
      ensures name !in schemas ==> r == Err(NotExists(name))
    {
      if name !in schemas {
        return Err(NotExists(name));
      }
      r := Ok(schemas[name]);
    }
  }

  /** Registering and then looking up the same name gives back what was
      registered, and leaves every other name's entry as it was. */
  method RegisterThenGet(service: SchemaService, name: string, schema: TableSchema, other: string)
      returns (got: Result<TableSchema, SchemaError>, otherBefore: Result<TableSchema, SchemaError>, otherAfter: Result<TableSchema, SchemaError>)
    requires name !in service.schemas && other != name
    modifies service
    ensures got == Ok(schema)
    ensures otherAfter == otherBefore
  {
    otherBefore := service.Get(other);
    var _ := service.Register(name, schema);
    got := service.Get(name);
    otherAfter := service.Get(other);
  }

  /** A fresh service answers "top-players" with an error and every
      built-in name with its layout. */
  method FreshServiceLookups() returns (top: Result<TableSchema, SchemaError>, users: Result<TableSchema, SchemaError>)
    ensures top == Err(NotExists("top-players"))
    ensures users == Ok(Users)
  {
    var service := new SchemaService();
    BuiltinLayouts();
    top := service.Get("top-players");
    users := service.Get("users");
  }
}
