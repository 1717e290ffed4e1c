/**
  The static role-based access control table and its lookup `can`: a role
  maps to a list of entries, each naming one resource and the actions the
  role may perform on it. Matching is exact string equality; a role that is
  not a key of the table has no permissions.
 */
module Rbac {
  import opened Wrappers
  import opened JsValues

  /** One entry of a role's permission list. */
  datatype Permission = Permission(resource: string, actions: seq<string>)

  /** The shipped table, keyed by role name. */
  const Table: map<string, seq<Permission>> := map[
    "admin" := [
      Permission("users", ["create", "read", "update", "delete"]),
      Permission("auditLogs", ["read", "delete"]),
      Permission("books", ["create", "read", "update", "delete"]),
      Permission("metrics", ["read"]),
      Permission("health", ["read"])
    ],
    "user" := [
      Permission("profile", ["read", "update"]),
      Permission("books", ["read"]),
      Permission("data", ["read"])
    ],
    "auditor" := [
      Permission("auditLogs", ["read"])
    ],
    "guest" := [
      Permission("auth", ["register", "login"])
    ]
  ]

  /** Every (role, resource, action) triple the table grants, written out
      flat: an independent reading of the table above. */
  const Granted: set<(string, string, string)> := {
    ("admin", "users", "create"), ("admin", "users", "read"),
    ("admin", "users", "update"), ("admin", "users", "delete"),
    ("admin", "auditLogs", "read"), ("admin", "auditLogs", "delete"),
    ("admin", "books", "create"), ("admin", "books", "read"),
    ("admin", "books", "update"), ("admin", "books", "delete"),
    ("admin", "metrics", "read"), ("admin", "health", "read"),
    ("user", "profile", "read"), ("user", "profile", "update"),
    ("user", "books", "read"), ("user", "data", "read"),
    ("auditor", "auditLogs", "read"),
    ("guest", "auth", "register"), ("guest", "auth", "login")
  }

  /** The action names that occur anywhere in the table. */
  const TableActions: set<string> := {"create", "read", "update", "delete", "register", "login"}

  /** Whether some entry of a role's permission list names the resource and
      lists the action among its actions. */
  function Grants(perms: seq<Permission>, resource: string, action: string): (b: bool)
    ensures b <==> exists i :: 0 <= i < |perms| && perms[i].resource == resource && action in perms[i].actions
  {
    if |perms| == 0 then false
    else (perms[0].resource == resource && action in perms[0].actions) || Grants(perms[1..], resource, action)
  }

  /** The table lookup, reading the table by its own keys only: an unknown
      role holds no permission. */
  function Can(role: string, resource: string, action: string): (b: bool)
    ensures role !in Table ==> !b
    ensures b <==> role in Table && exists p :: p in Table[role] && p.resource == resource && action in p.actions
  {
    var perms := if role in Table then Table[role] else [];
    Grants(perms, resource, action)
  }

  /** The table lookup as the source performs it: indexing the table object
      by the role also finds the members every object literal inherits
      (`toString`, `constructor`, ...); those are truthy, so no empty list
      replaces them, and they have no array methods, so scanning them throws. */
  function CanAsWritten(role: string, resource: string, action: string): (r: Result<bool, TypeError>)
    ensures r.Err? <==> role !in Table && role in ObjectPrototypeNames
    ensures role !in ObjectPrototypeNames ==> r == Ok(Can(role, resource, action))
    ensures role in ObjectPrototypeNames ==> r.Err?
  {
    if role in Table then Ok(Grants(Table[role], resource, action))
    else if Truthy(GetProperty(map[], role)) then Err(TypeError("permissions.some is not a function"))
    else Ok(Grants([], resource, action))
  }

  /** The discrepancy: asking about the role `toString` throws instead of
      answering false. */
  lemma CanAsWrittenThrowsOnInheritedName()
    ensures CanAsWritten("toString", "users", "read").Err?
    ensures !Can("toString", "users", "read")
  {
  }

  /** `can` agrees with the flat list of granted triples, in both directions. */
  lemma CanIsGranted(role: string, resource: string, action: string)
    ensures Can(role, resource, action) <==> (role, resource, action) in Granted
  {
    if role == "admin" {
      AdminRow(resource, action);
    } else if role == "user" {
      UserRow(resource, action);
    } else if role == "auditor" {
      AuditorRow(resource, action);
    } else if role == "guest" {
      GuestRow(resource, action);
    } else {
      assert role !in Table;
    }
  }

  /** The admin row of the table against the admin triples of the flat list. */
  lemma AdminRow(resource: string, action: string)
    ensures Can("admin", resource, action) <==> ("admin", resource, action) in Granted
  {
    var perms := Table["admin"];
    assert perms[1..][1..][1..][1..] == [Permission("health", ["read"])];
    assert Grants(perms, resource, action) <==>
      || (resource == "users" && action in ["create", "read", "update", "delete"])
      || (resource == "auditLogs" && action in ["read", "delete"])
      || (resource == "books" && action in ["create", "read", "update", "delete"])
      || (resource == "metrics" && action == "read")
      || (resource == "health" && action == "read");
    AdminGranted(resource, action);
  }

  /** The admin triples of the flat list, grouped by resource. */
  lemma AdminGranted(resource: string, action: string)
    ensures ("admin", resource, action) in Granted <==>
      || (resource == "users" && action in ["create", "read", "update", "delete"])
      || (resource == "auditLogs" && action in ["read", "delete"])
      || (resource == "books" && action in ["create", "read", "update", "delete"])
      || (resource == "metrics" && action == "read")
      || (resource == "health" && action == "read")
  {
  }

  /** The user row of the table against the user triples of the flat list. */
  lemma UserRow(resource: string, action: string)
    ensures Can("user", resource, action) <==> ("user", resource, action) in Granted
  {
    var perms := Table["user"];
    assert Grants(perms, resource, action) <==>
      || (resource == "profile" && action in ["read", "update"])
      || (resource == "books" && action == "read")
      || (resource == "data" && action == "read");
  }

  /** The auditor row of the table against the auditor triple of the flat list. */
  lemma AuditorRow(resource: string, action: string)
    ensures Can("auditor", resource, action) <==> ("auditor", resource, action) in Granted
  {
    var perms := Table["auditor"];
    assert Grants(perms, resource, action) <==> resource == "auditLogs" && action == "read";
  }

  /** The guest row of the table against the guest triples of the flat list. */
  lemma GuestRow(resource: string, action: string)
    ensures Can("guest", resource, action) <==> ("guest", resource, action) in Granted
  {
    var perms := Table["guest"];
    assert Grants(perms, resource, action) <==> resource == "auth" && action in ["register", "login"];
  }

  /** The table's examples: an admin may delete users, a plain user may not. */
  lemma AdminDeletesUsersUserDoesNot()
    ensures Can("admin", "users", "delete")
    ensures !Can("user", "users", "delete")
  {
    CanIsGranted("admin", "users", "delete");
    CanIsGranted("user", "users", "delete");
  }

  /** An auditor may read audit logs and do nothing else anywhere. */
  lemma AuditorOnlyReadsAuditLogs(resource: string, action: string)
    ensures Can("auditor", resource, action) <==> resource == "auditLogs" && action == "read"
  {
    CanIsGranted("auditor", resource, action);
  }

  /** A guest may only register and log in on `auth`. */
  lemma GuestOnlyRegistersAndLogsIn(resource: string, action: string)
    ensures Can("guest", resource, action) <==> resource == "auth" && (action == "register" || action == "login")
  {
    CanIsGranted("guest", resource, action);
  }

  /** Only the admin role ever holds `delete`. */
  lemma OnlyAdminDeletes(role: string, resource: string)
    ensures Can(role, resource, "delete") ==> role == "admin"
  {
    CanIsGranted(role, resource, "delete");
  }

  /** Every granted action is one of the table's six action names. */
  lemma GrantedActionIsTableAction(role: string, resource: string, action: string)
    ensures Can(role, resource, action) ==> action in TableActions
  {
    CanIsGranted(role, resource, action);
  }
}
