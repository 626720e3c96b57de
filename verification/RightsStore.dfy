/** The rights rows of one publication and its two flags, changed statement by statement
    (src/layman/common/prime_db_schema/rights.py and publications.py). */
module RightsStore {
  import opened Wrappers
  import opened AccessRights

  lemma OneUserMore(right: Right, users: set<string>, todo: set<string>, user: string)
    requires todo <= users && user in todo
    ensures RowsOf(right, users - (todo - {user}), {}) == RowsOf(right, users - todo, {}) + {Row(right, UserRow(user))}
  {}

  lemma OneRoleMore(right: Right, users: set<string>, roles: set<string>, todo: set<string>, role: string)
    requires todo <= roles && role in todo
    ensures RowsOf(right, users, roles - (todo - {role}))
         == RowsOf(right, users, roles - todo) + {Row(right, RoleRow(role))}
  {}

  class PublicationRecord {
    const owner: Option<string>
    var readByAll: bool
    var writeByAll: bool
    var rows: Table

    function Record(): Publication
      reads this
    {
      Publication(owner, readByAll, writeByAll, rows)
    }

    constructor (owner: Option<string>)
      ensures Record() == Publication(owner, false, false, map[])
    {
      this.owner := owner;
      readByAll, writeByAll, rows := false, false, map[];
    }

    /** One INSERT per user and per role, in whatever order the sets are visited. */
    method InsertRights(users: set<string>, roles: set<string>, right: Right)
      modifies this`rows
      ensures rows == Insert(old(rows), RowsOf(right, users, roles))
    {
      var todo := users;
      while todo != {}
        invariant todo <= users
        invariant rows == Insert(old(rows), RowsOf(right, users - todo, {}))
      {
        var user :| user in todo;
        var row := Row(right, UserRow(user));
        InsertOne(old(rows), RowsOf(right, users - todo, {}), row);
        rows := rows[row := if row in rows then rows[row] + 1 else 1];
        OneUserMore(right, users, todo, user);
        todo := todo - {user};
      }
      assert users - {} == users;
      InsertRoles(users, roles, right, old(rows));
    }

    method InsertRoles(users: set<string>, roles: set<string>, right: Right, ghost before: Table)
      requires rows == Insert(before, RowsOf(right, users, {}))
      modifies this`rows
      ensures rows == Insert(before, RowsOf(right, users, roles))
    {
      var todo := roles;
      while todo != {}
        invariant todo <= roles
        invariant rows == Insert(before, RowsOf(right, users, roles - todo))
      {
        var role :| role in todo;
        var row := Row(right, RoleRow(role));
        InsertOne(before, RowsOf(right, users, roles - todo), row);
        rows := rows[row := if row in rows then rows[row] + 1 else 1];
        OneRoleMore(right, users, roles, todo, role);
        todo := todo - {role};
      }
      assert roles - {} == roles;
    }

    /** One DELETE per user and per role; it removes every copy of the row. */
    method RemoveRights(users: set<string>, roles: set<string>, right: Right)
      modifies this`rows
      ensures rows == Erase(old(rows), RowsOf(right, users, roles))
    {
      var todo := users;
      while todo != {}
        invariant todo <= users
        invariant rows == Erase(old(rows), RowsOf(right, users - todo, {}))
      {
        var user :| user in todo;
        OneUserMore(right, users, todo, user);
        rows := rows - {Row(right, UserRow(user))};
        todo := todo - {user};
      }
      todo := roles;
      while todo != {}
        invariant todo <= roles
        invariant rows == Erase(old(rows), RowsOf(right, users, roles - todo))
      {
        var role :| role in todo;
        OneRoleMore(right, users, roles, todo, role);
        rows := rows - {Row(right, RoleRow(role))};
        todo := todo - {role};
      }
    }

    method ApplyDelta(right: Right, names: set<string>, oldNames: set<string>)
      requires oldNames == NamesOf(Record(), right)
      modifies this`rows
      ensures rows == UpdateRows(old(Record()), old(rows), right, names)
    {
      if names != {} {
        var users, roles := StoredUsers(owner, names), StoredRoles(names);
        var oldUsers, oldRoles := StoredUsers(owner, oldNames), StoredRoles(oldNames);
        InsertRights(users - oldUsers, roles - oldRoles, right);
        RemoveRights(oldUsers - users, oldRoles - roles, right);
      }
    }

    method Update(env: Env, request: Request) returns (refusal: Option<Refusal>)
      modifies this
      ensures match UpdatePublication(env, old(Record()), request)
        case Ok(p) => refusal == None && Record() == p
        case Err(e) => refusal == Some(e) && Record() == old(Record())
    {
      var readOld, writeOld := NamesOf(Record(), Read), NamesOf(Record(), Write);
      refusal := CheckAxioms(env, owner, request, readOld, writeOld);
      if refusal == None {
        ghost var before := Record();
        ApplyDelta(Read, request.read, readOld);
        ReadRowsOnly(before, request.read);
        ApplyDelta(Write, request.write, writeOld);
        ReadFirst(before, rows, request);
        if request.read != {} {
          readByAll := EVERYONE in request.read;
        }
        if request.write != {} {
          writeByAll := EVERYONE in request.write;
        }
      }
    }
  }

  lemma InsertOne(rows: Table, added: set<Row>, row: Row)
    requires row !in added
    ensures var t := Insert(rows, added);
      t[row := if row in t then t[row] + 1 else 1] == Insert(rows, added + {row})
  {
  }

  /** The read rows can change without the write list changing. */
  lemma ReadRowsOnly(p: Publication, names: set<string>)
    ensures RowNames(UpdateRows(p, p.rows, Read, names), Write) == RowNames(p.rows, Write)
  {
    var rows := UpdateRows(p, p.rows, Read, names);
    assert forall r: Row | r.right == Write :: r in rows <==> r in p.rows;
  }

  /** So the deltas of the write list may be taken before or after the read rows were changed. */
  lemma ReadFirst(p: Publication, rows: Table, request: Request)
    requires var q := p.(rows := UpdateRows(p, p.rows, Read, request.read));
      rows == UpdateRows(q, q.rows, Write, request.write)
    ensures rows == UpdateRows(p, UpdateRows(p, p.rows, Read, request.read), Write, request.write)
  {
    ReadRowsOnly(p, request.read);
  }
}
