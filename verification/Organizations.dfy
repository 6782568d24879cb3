/** The organizations table, the schemas beside it, and the transactions on both. */
module Organizations {
  import opened Wrappers
  import opened Environment
  import opened Tables
  import Quoting
  import C = Constants

  datatype Organization = Organization(organizationId: int, name: string, secretKey: int, namespace: string)

  /** `settings` are the organizations that rows of the global settings table name; that reference does not cascade. */
  datatype Db = Db(orgs: map<int, Organization>, nextOrg: int, schemas: map<string, Tables>, settings: set<int>)

  /** The database after a transaction and what it returned. */
  datatype Ran<+T> = Ran(db: Db, out: Result<T, Error>)

  /** The tables of a namespace; one that does not exist yet will start out empty. */
  function Schema(d: Db, ns: string): Tables {
    if ns in d.schemas then d.schemas[ns] else Empty(false)
  }

  /** The database with other tables in one of its schemas. */
  function At(d: Db, ns: string, t: Tables): Db {
    if ns in d.schemas then d.(schemas := d.schemas[ns := t]) else d
  }

  /** The outcome of a transaction in one schema, put back into the database. Without the schema the first statement
      fails. */
  function Commit<T>(d: Db, ns: string, x: Tx<T>): Ran<T> {
    Ran(At(d, ns, x.t), if ns in d.schemas then x.out else Err(Database))
  }

  /** Later tables of a schema replace earlier ones, and nothing else remembers them. */
  lemma AtTwice(d: Db, ns: string, t: Tables, t': Tables)
    ensures At(At(d, ns, t), ns, t') == At(d, ns, t')
    ensures At(d, ns, Schema(d, ns)) == d
    ensures Schema(At(d, ns, t), ns) == if ns in d.schemas then t else Empty(false)
    ensures (ns in At(d, ns, t).schemas <==> ns in d.schemas) && At(d, ns, t).orgs == d.orgs
  {}

  function NamespaceRows(orgs: map<int, Organization>, namespace: string): set<int> {
    set o | o in orgs && orgs[o].namespace == namespace
  }

  function FindByNamespace(orgs: map<int, Organization>, namespace: string, q: Planner): Option<Organization> {
    match First(q, NamespaceRows(orgs, namespace)) case None => None case Some(o) => Some(orgs[o])
  }

  function FindById(orgs: map<int, Organization>, organizationId: int): Option<Organization> {
    if organizationId in orgs then Some(orgs[organizationId]) else None
  }

  function KeyRows(orgs: map<int, Organization>, key: int): set<int> {
    set o | o in orgs && orgs[o].secretKey == key
  }

  function FindBySecretKey(orgs: map<int, Organization>, key: int, q: Planner): Option<Organization> {
    match First(q, KeyRows(orgs, key)) case None => None case Some(o) => Some(orgs[o])
  }

  predicate NameTaken(orgs: map<int, Organization>, name: string) {
    exists o | o in orgs :: orgs[o].name == name
  }

  /** A namespace PostgreSQL can create a schema for: it is not empty, keeps clear of the reserved prefix,
      and its schema does not exist yet. */
  predicate SchemaCreatable(d: Db, namespace: string) {
    namespace != [] && !("pg_" <= namespace) && namespace !in d.schemas
  }

  function InsertOrganization(d: Db, name: string, namespace: string, key: int): Ran<Organization> {
    if |name| > 100 || |namespace| > 63 || d.nextOrg > C.MAX_I64
      || exists o | o in d.orgs ::
           d.orgs[o].name == name || d.orgs[o].namespace == namespace || d.orgs[o].secretKey == key
    then Ran(d, Err(Database))
    else if !Quoting.NamespaceText(namespace) then Ran(d, Err(InvalidNamespace))
    else if !SchemaCreatable(d, namespace) then Ran(d, Err(Database))
    else
      var o := Organization(d.nextOrg, name, key, namespace);
      Ran(d.(orgs := d.orgs[d.nextOrg := o], nextOrg := d.nextOrg + 1, schemas := d.schemas[namespace := Empty(false)]),
          Ok(o))
  }

  function RotateSecretKey(d: Db, organizationId: int, key: int): Ran<int> {
    if exists o | o in d.orgs :: o != organizationId && d.orgs[o].secretKey == key then
      Ran(d, if organizationId in d.orgs then Err(Database) else Ok(key))
    else if organizationId in d.orgs then
      Ran(d.(orgs := d.orgs[organizationId := d.orgs[organizationId].(secretKey := key)]), Ok(key))
    else Ran(d, Ok(key))
  }

  /** The row goes, and with it every row of every schema that references it; a global setting of the organization
      refuses. The schemas stay. */
  function DeleteOrganization(d: Db, organizationId: int): Ran<()> {
    if (organizationId in d.orgs && organizationId in d.settings)
      || exists ns | ns in d.schemas :: DropOrganization(d.schemas[ns], organizationId).None?
    then Ran(d, Err(Database))
    else
      Ran(d.(orgs := d.orgs - {organizationId},
             schemas := map ns | ns in d.schemas :: DropOrganization(d.schemas[ns], organizationId).value), Ok(()))
  }
}
