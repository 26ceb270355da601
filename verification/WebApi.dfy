/**
 * The tunnel editor of web/src/main.rs: the UPDATE statement assembled from the supplied fields, what a database
 * makes of it, and the id given to a new tunnel.
 */
module WebApi {
  import opened Base
  import opened Text

  type i32 = n: int | -0x8000_0000 <= n < 0x8000_0000

  datatype SqlValue = Null | Number(n: int) | Words(s: string) | Flag(b: bool)

  datatype UpdateRequest = UpdateRequest(
    name: Option<string>,
    serverIp: Option<string>,
    serverPort: Option<u16>,
    remotePort: Option<u16>,
    protocol: Option<string>,
    subdomain: Option<string>,
    domain: Option<string>,
    online: Option<bool>,
    serverId: Option<i32>,
    clientId: Option<string>,
    createSrv: Option<bool>,
    proxyProtocol: Option<bool>)

  /** A statement with its positional arguments. */
  datatype Query = Query(sql: string, binds: seq<SqlValue>)

  const UPDATE := "UPDATE tunnels SET "
  const WHERE := " WHERE id = ?"

  // ---------------------------------------------------------------- building the statement

  /** A negative server id asks for "no server". */
  function ServerValue(v: i32): SqlValue {
    if v < 0 then Null else Number(v)
  }

  /** The client id "-" asks for "no client". */
  function ClientValue(v: string): SqlValue {
    if v == "-" then Null else Words(v)
  }

  predicate AffectsDns(req: UpdateRequest) {
    req.serverId.Some? || req.subdomain.Some? || req.domain.Some? || req.createSrv.Some? || req.remotePort.Some?
  }

  datatype Field = Field(column: string, value: Option<SqlValue>)

  function Given<T>(column: string, v: Option<T>, f: T -> SqlValue): Field {
    Field(column, if v.Some? then Some(f(v.value)) else None)
  }

  /** The columns a request may set, each with the value it asks for, if any. */
  function Fields(req: UpdateRequest): seq<Field> {
    [ Given("name", req.name, s => Words(s)),
      Given("server_ip", req.serverIp, s => Words(s)),
      Given("server_port", req.serverPort, n => Number(n)),
      Given("remote_port", req.remotePort, n => Number(n)),
      Given("protocol", req.protocol, s => Words(s)),
      Given("subdomain", req.subdomain, s => Words(s)),
      Given("domain", req.domain, s => Words(s)),
      Given("online", req.online, b => Flag(b)),
      Given("server_id", req.serverId, ServerValue),
      Given("client_id", req.clientId, ClientValue),
      Given("create_srv", req.createSrv, b => Flag(b)),
      Given("proxy_protocol", req.proxyProtocol, b => Flag(b)) ]
  }

  const COLUMNS := 
    ["name", "server_ip", "server_port", "remote_port", "protocol", "subdomain",
     "domain", "online", "server_id", "client_id", "create_srv", "proxy_protocol", "dns_set"]

  lemma ColumnsAre(req: UpdateRequest)
    ensures |Fields(req)| == 12 && |COLUMNS| == 13 && COLUMNS[12] == "dns_set"
    ensures Fields(req)[0].column == COLUMNS[0] == "name"
    ensures Fields(req)[1].column == COLUMNS[1] == "server_ip"
    ensures Fields(req)[2].column == COLUMNS[2] == "server_port"
    ensures Fields(req)[3].column == COLUMNS[3] == "remote_port"
    ensures Fields(req)[4].column == COLUMNS[4] == "protocol"
    ensures Fields(req)[5].column == COLUMNS[5] == "subdomain"
    ensures Fields(req)[6].column == COLUMNS[6] == "domain"
    ensures Fields(req)[7].column == COLUMNS[7] == "online"
    ensures Fields(req)[8].column == COLUMNS[8] == "server_id"
    ensures Fields(req)[9].column == COLUMNS[9] == "client_id"
    ensures Fields(req)[10].column == COLUMNS[10] == "create_srv"
    ensures Fields(req)[11].column == COLUMNS[11] == "proxy_protocol"
  {
  }

  /** Column names differ in length, first or last letter. */
  function ColumnNumber(c: string): nat
    requires c != ""
  {
    if |c| == 4 then 0
    else if |c| == 6 then if c[0] == 'd' then 6 else 7
    else if |c| == 7 then 12
    else if |c| == 8 then 4
    else if |c| == 9 then if c[0] == 'c' then 9 else if c[8] == 'p' then 1 else if c[8] == 'n' then 5 else 8
    else if |c| == 10 then 10
    else if |c| == 11 then if c[0] == 's' then 2 else 3
    else 11
  }

  lemma ColumnsNumbered()
    ensures forall i | 0 <= i < |COLUMNS| :: COLUMNS[i] != "" && ColumnNumber(COLUMNS[i]) == i
  {
    assert COLUMNS[0] == "name" && ColumnNumber("name") == 0;
    assert COLUMNS[1] == "server_ip" && ColumnNumber("server_ip") == 1;
    assert COLUMNS[2] == "server_port" && ColumnNumber("server_port") == 2;
    assert COLUMNS[3] == "remote_port" && ColumnNumber("remote_port") == 3;
    assert COLUMNS[4] == "protocol" && ColumnNumber("protocol") == 4;
    assert COLUMNS[5] == "subdomain" && ColumnNumber("subdomain") == 5;
    assert COLUMNS[6] == "domain" && ColumnNumber("domain") == 6;
    assert COLUMNS[7] == "online" && ColumnNumber("online") == 7;
    assert COLUMNS[8] == "server_id" && ColumnNumber("server_id") == 8;
    assert COLUMNS[9] == "client_id" && ColumnNumber("client_id") == 9;
    assert COLUMNS[10] == "create_srv" && ColumnNumber("create_srv") == 10;
    assert COLUMNS[11] == "proxy_protocol" && ColumnNumber("proxy_protocol") == 11;
    assert COLUMNS[12] == "dns_set" && ColumnNumber("dns_set") == 12;
  }

  function Clause(f: Field): seq<string> {
    if f.value.Some? then [f.column + " = ?"] else []
  }

  function Clauses(fs: seq<Field>): seq<string> {
    if fs == [] then [] else Clause(fs[0]) + Clauses(fs[1..])
  }

  function Value(f: Field): seq<SqlValue> {
    if f.value.Some? then [f.value.value] else []
  }

  function Values(fs: seq<Field>): seq<SqlValue> {
    if fs == [] then [] else Value(fs[0]) + Values(fs[1..])
  }

  function DnsClause(reset: bool): seq<string> {
    if reset then ["dns_set = FALSE"] else []
  }

  // What has been pushed when the first `k` fields have been looked at.
  ghost predicate ClausesPushed(u: seq<string>, fs: seq<Field>, k: nat) {
    k <= |fs| && u + Clauses(fs[k..]) == Clauses(fs)
  }

  ghost predicate ValuesBound(q: seq<SqlValue>, fs: seq<Field>, k: nat) {
    k <= |fs| && q + Values(fs[k..]) == Values(fs)
  }

  lemma NothingYet(fs: seq<Field>)
    ensures ClausesPushed([], fs, 0) && ValuesBound([], fs, 0)
  {
    assert fs[0..] == fs;
  }

  lemma PushNext(u: seq<string>, fs: seq<Field>, k: nat)
    requires k < |fs| && ClausesPushed(u, fs, k)
    ensures if fs[k].value.Some? then ClausesPushed(u + [fs[k].column + " = ?"], fs, k + 1)
      else ClausesPushed(u, fs, k + 1)
  {
    assert fs[k..][1..] == fs[k + 1..];
    Associative(u, Clause(fs[k]), Clauses(fs[k + 1..]));
  }

  lemma BindNext(q: seq<SqlValue>, fs: seq<Field>, k: nat)
    requires k < |fs| && ValuesBound(q, fs, k)
    ensures if fs[k].value.Some? then ValuesBound(q + [fs[k].value.value], fs, k + 1) else ValuesBound(q, fs, k + 1)
  {
    assert fs[k..][1..] == fs[k + 1..];
    Associative(q, Value(fs[k]), Values(fs[k + 1..]));
  }

  // The twelve fields in three groups of four: each field's clause and its value.
  lemma EndpointFields(req: UpdateRequest)
    ensures var fs := Fields(req);
      && |fs| == 12
      && fs[0].column + " = ?" == "name = ?"
      && fs[0].value == (if req.name.Some? then Some(Words(req.name.value)) else None)
      && fs[1].column + " = ?" == "server_ip = ?"
      && fs[1].value == (if req.serverIp.Some? then Some(Words(req.serverIp.value)) else None)
      && fs[2].column + " = ?" == "server_port = ?"
      && fs[2].value == (if req.serverPort.Some? then Some(Number(req.serverPort.value)) else None)
      && fs[3].column + " = ?" == "remote_port = ?"
      && fs[3].value == (if req.remotePort.Some? then Some(Number(req.remotePort.value)) else None)
  {
  }

  lemma AddressFields(req: UpdateRequest)
    ensures var fs := Fields(req);
      && |fs| == 12
      && fs[4].column + " = ?" == "protocol = ?"
      && fs[4].value == (if req.protocol.Some? then Some(Words(req.protocol.value)) else None)
      && fs[5].column + " = ?" == "subdomain = ?"
      && fs[5].value == (if req.subdomain.Some? then Some(Words(req.subdomain.value)) else None)
      && fs[6].column + " = ?" == "domain = ?"
      && fs[6].value == (if req.domain.Some? then Some(Words(req.domain.value)) else None)
      && fs[7].column + " = ?" == "online = ?"
      && fs[7].value == (if req.online.Some? then Some(Flag(req.online.value)) else None)
  {
  }

  lemma PlacementFields(req: UpdateRequest)
    ensures var fs := Fields(req);
      && |fs| == 12
      && fs[8].column + " = ?" == "server_id = ?"
      && fs[8].value == (if req.serverId.Some? then Some(ServerValue(req.serverId.value)) else None)
      && fs[9].column + " = ?" == "client_id = ?"
      && fs[9].value == (if req.clientId.Some? then Some(ClientValue(req.clientId.value)) else None)
      && fs[10].column + " = ?" == "create_srv = ?"
      && fs[10].value == (if req.createSrv.Some? then Some(Flag(req.createSrv.value)) else None)
      && fs[11].column + " = ?" == "proxy_protocol = ?"
      && fs[11].value == (if req.proxyProtocol.Some? then Some(Flag(req.proxyProtocol.value)) else None)
  {
  }

  /** Pushes the clause of field `k`, if the request supplies it. */
  method PushIf(u: seq<string>, supplied: bool, clause: string, ghost fs: seq<Field>, ghost k: nat)
    returns (r: seq<string>)
    requires k < |fs| && ClausesPushed(u, fs, k) && fs[k].value.Some? == supplied && fs[k].column + " = ?" == clause
    ensures ClausesPushed(r, fs, k + 1)
  {
    PushNext(u, fs, k);
    if supplied {
      return u + [clause];
    }
    return u;
  }

  method PushEndpointClauses(req: UpdateRequest) returns (u: seq<string>)
    ensures ClausesPushed(u, Fields(req), 4)
  {
    ghost var fs := Fields(req);
    EndpointFields(req);
    NothingYet(fs);
    hide *;
    u := [];
    u := PushIf(u, req.name.Some?, "name = ?", fs, 0);
    u := PushIf(u, req.serverIp.Some?, "server_ip = ?", fs, 1);
    u := PushIf(u, req.serverPort.Some?, "server_port = ?", fs, 2);
    u := PushIf(u, req.remotePort.Some?, "remote_port = ?", fs, 3);
  }

  method PushAddressClauses(req: UpdateRequest, pushed: seq<string>) returns (u: seq<string>)
    requires ClausesPushed(pushed, Fields(req), 4)
    ensures ClausesPushed(u, Fields(req), 8)
  {
    ghost var fs := Fields(req);
    AddressFields(req);
    hide *;
    u := pushed;
    u := PushIf(u, req.protocol.Some?, "protocol = ?", fs, 4);
    u := PushIf(u, req.subdomain.Some?, "subdomain = ?", fs, 5);
    u := PushIf(u, req.domain.Some?, "domain = ?", fs, 6);
    u := PushIf(u, req.online.Some?, "online = ?", fs, 7);
  }

  method PushPlacementClauses(req: UpdateRequest, pushed: seq<string>) returns (u: seq<string>)
    requires ClausesPushed(pushed, Fields(req), 8)
    ensures ClausesPushed(u, Fields(req), 12)
  {
    ghost var fs := Fields(req);
    PlacementFields(req);
    hide *;
    u := pushed;
    u := PushIf(u, req.serverId.Some?, "server_id = ?", fs, 8);
    u := PushIf(u, req.clientId.Some?, "client_id = ?", fs, 9);
    u := PushIf(u, req.createSrv.Some?, "create_srv = ?", fs, 10);
    u := PushIf(u, req.proxyProtocol.Some?, "proxy_protocol = ?", fs, 11);
  }

  method PushClauses(req: UpdateRequest) returns (u: seq<string>)
    ensures u == Clauses(Fields(req))
  {
    u := PushEndpointClauses(req);
    u := PushAddressClauses(req, u);
    u := PushPlacementClauses(req, u);
    assert |Fields(req)| == 12;
    hide *;
    AllPushed(u, Fields(req));
  }

  /** Binds the value of field `k`, if there is one. */
  method BindIfSome(q: seq<SqlValue>, value: Option<SqlValue>, ghost fs: seq<Field>, ghost k: nat)
    returns (r: seq<SqlValue>)
    requires k < |fs| && ValuesBound(q, fs, k) && fs[k].value == value
    ensures ValuesBound(r, fs, k + 1)
  {
    BindNext(q, fs, k);
    if value.Some? {
      return q + [value.value];
    }
    return q;
  }

  method BindEndpointValues(req: UpdateRequest) returns (q: seq<SqlValue>)
    ensures ValuesBound(q, Fields(req), 4)
  {
    ghost var fs := Fields(req);
    EndpointFields(req);
    NothingYet(fs);
    hide *;
    q := [];
    q := BindIfSome(q, if req.name.Some? then Some(Words(req.name.value)) else None, fs, 0);
    q := BindIfSome(q, if req.serverIp.Some? then Some(Words(req.serverIp.value)) else None, fs, 1);
    q := BindIfSome(q, if req.serverPort.Some? then Some(Number(req.serverPort.value)) else None, fs, 2);
    q := BindIfSome(q, if req.remotePort.Some? then Some(Number(req.remotePort.value)) else None, fs, 3);
  }

  method BindAddressValues(req: UpdateRequest, bound: seq<SqlValue>) returns (q: seq<SqlValue>)
    requires ValuesBound(bound, Fields(req), 4)
    ensures ValuesBound(q, Fields(req), 8)
  {
    ghost var fs := Fields(req);
    AddressFields(req);
    hide *;
    q := bound;
    q := BindIfSome(q, if req.protocol.Some? then Some(Words(req.protocol.value)) else None, fs, 4);
    q := BindIfSome(q, if req.subdomain.Some? then Some(Words(req.subdomain.value)) else None, fs, 5);
    q := BindIfSome(q, if req.domain.Some? then Some(Words(req.domain.value)) else None, fs, 6);
    q := BindIfSome(q, if req.online.Some? then Some(Flag(req.online.value)) else None, fs, 7);
  }

  method BindPlacementValues(req: UpdateRequest, bound: seq<SqlValue>) returns (q: seq<SqlValue>)
    requires ValuesBound(bound, Fields(req), 8)
    ensures ValuesBound(q, Fields(req), 12)
  {
    ghost var fs := Fields(req);
    PlacementFields(req);
    hide *;
    q := bound;
    q := BindIfSome(q, if req.serverId.Some? then Some(ServerValue(req.serverId.value)) else None, fs, 8);
    q := BindIfSome(q, if req.clientId.Some? then Some(ClientValue(req.clientId.value)) else None, fs, 9);
    q := BindIfSome(q, if req.createSrv.Some? then Some(Flag(req.createSrv.value)) else None, fs, 10);
    q := BindIfSome(q, if req.proxyProtocol.Some? then Some(Flag(req.proxyProtocol.value)) else None, fs, 11);
  }

  method BindValues(req: UpdateRequest) returns (q: seq<SqlValue>)
    ensures q == Values(Fields(req))
  {
    q := BindEndpointValues(req);
    q := BindAddressValues(req, q);
    q := BindPlacementValues(req, q);
    assert |Fields(req)| == 12;
    hide *;
    AllBound(q, Fields(req));
  }

  lemma AllPushed(u: seq<string>, fs: seq<Field>)
    requires ClausesPushed(u, fs, |fs|)
    ensures u == Clauses(fs)
  {
    assert u + [] == u;
  }

  lemma AllBound(q: seq<SqlValue>, fs: seq<Field>)
    requires ValuesBound(q, fs, |fs|)
    ensures q == Values(fs)
  {
    assert q + [] == q;
  }

  function Statement(id: u32, req: UpdateRequest): Query {
    Query(
      UPDATE + Join(Clauses(Fields(req)) + DnsClause(AffectsDns(req)), ", ") + WHERE,
      Values(Fields(req)) + [Number(id)])
  }

  predicate SuppliesNothing(req: UpdateRequest) {
    && req.name.None? && req.serverIp.None? && req.serverPort.None? && req.remotePort.None?
    && req.protocol.None? && req.subdomain.None? && req.domain.None? && req.online.None?
    && req.serverId.None? && req.clientId.None? && req.createSrv.None? && req.proxyProtocol.None?
  }

  lemma {:induction false} NoClauses(fs: seq<Field>)
    ensures Clauses(fs) == [] <==> forall i | 0 <= i < |fs| :: fs[i].value.None?
  {
    if fs != [] {
      NoClauses(fs[1..]);
      assert forall i | 0 < i < |fs| :: fs[i] == fs[1..][i - 1];
      assert forall i | 0 <= i < |fs| - 1 :: fs[1..][i] == fs[i + 1];
    }
  }

  lemma NothingToSet(req: UpdateRequest)
    ensures Clauses(Fields(req)) == [] <==> SuppliesNothing(req)
  {
    NoClauses(Fields(req));
    EndpointFields(req);
    AddressFields(req);
    PlacementFields(req);
    hide Fields, Clauses;
  }

  /** The statement for a request; none ("No fields") for a request that supplies nothing. */
  method UpdateTunnel(id: u32, req: UpdateRequest) returns (r: Option<Query>)
    ensures r == if SuppliesNothing(req) then None else Some(Statement(id, req))
  {
    NothingToSet(req);
    hide Clauses, Values, Fields, Join, SuppliesNothing;
    var u := PushClauses(req);
    if u == [] {
      return None;
    }
    var dnsReset := AffectsDns(req);
    if dnsReset {
      u := u + ["dns_set = FALSE"];
    }
    assert Clauses(Fields(req)) + [] == Clauses(Fields(req));
    var sql := UPDATE + Join(u, ", ") + WHERE;
    var q := BindValues(req);
    q := q + [Number(id)];
    return Some(Query(sql, q));
  }

  // ---------------------------------------------------------------- what a database makes of it

  datatype Rhs = Placeholder | False

  datatype Assignment = Assignment(column: string, rhs: Rhs)

  type Row = map<string, SqlValue>
  type Table = map<u32, Row>

  predicate StartsWith(s: string, prefix: string) {
    |prefix| <= |s| && s[..|prefix|] == prefix
  }

  predicate EndsWith(s: string, suffix: string) {
    |suffix| <= |s| && s[|s| - |suffix|..] == suffix
  }

  predicate IsColumn(s: string) {
    s != "" && forall c | c in s :: 'a' <= c <= 'z' || c == '_'
  }

  /** One clause of the SET list: a column, and either a placeholder or the constant FALSE. */
  function ParseClause(s: string): Option<Assignment> {
    if EndsWith(s, " = ?") && IsColumn(s[..|s| - 4]) then Some(Assignment(s[..|s| - 4], Placeholder))
    else if EndsWith(s, " = FALSE") && IsColumn(s[..|s| - 8]) then Some(Assignment(s[..|s| - 8], False))
    else None
  }

  function SkipSpace(s: string): string {
    if s != "" && s[0] == ' ' then s[1..] else s
  }

  function ParseClauses(parts: seq<string>): Option<seq<Assignment>> {
    if parts == [] then Some([]) else
    var first, rest := ParseClause(SkipSpace(parts[0])), ParseClauses(parts[1..]);
    if first.Some? && rest.Some? then Some([first.value] + rest.value) else None
  }

  function ParseUpdate(sql: string): Option<seq<Assignment>> {
    if |sql| < |UPDATE| + |WHERE| || !StartsWith(sql, UPDATE) || !EndsWith(sql, WHERE) then None
    else ParseClauses(Split(sql[|UPDATE|..|sql| - |WHERE|], ','))
  }

  /** Performs the assignments from left to right; each placeholder takes the next argument, and none is left over. */
  function Assign(row: Row, assignments: seq<Assignment>, binds: seq<SqlValue>): Option<Row>
    decreases assignments
  {
    if assignments == [] then if binds == [] then Some(row) else None else
    var first, rest := assignments[0], assignments[1..];
    match first.rhs
    case False => Assign(row[first.column := Flag(false)], rest, binds)
    case Placeholder => if binds == [] then None else Assign(row[first.column := binds[0]], rest, binds[1..])
  }

  /** The argument of the final placeholder selects the row; a statement that selects none changes nothing. */
  function Execute(table: Table, q: Query): Option<Table> {
    var assignments := ParseUpdate(q.sql);
    if assignments.None? || q.binds == [] then None else
    var n := |q.binds| - 1;
    match q.binds[n]
    case Number(id) =>
      if id in table then
        var row := Assign(table[id], assignments.value, q.binds[..n]);
        if row.Some? then Some(table[id := row.value]) else None
      else Some(table)
    case _ => None
  }

  function Cell(row: Row, column: string): Option<SqlValue> {
    if column in row then Some(row[column]) else None
  }

  // ---------------------------------------------------------------- the statement parses into its clauses

  ghost predicate WellNamed(fs: seq<Field>) {
    && (forall i | 0 <= i < |fs| :: IsColumn(fs[i].column) && fs[i].column != "dns_set")
    && (forall i, j :: 0 <= i < j < |fs| ==> fs[i].column != fs[j].column)
  }

  function Assignments(fs: seq<Field>): seq<Assignment> {
    if fs == [] then [] else
    (if fs[0].value.Some? then [Assignment(fs[0].column, Placeholder)] else []) + Assignments(fs[1..])
  }

  /** The pieces between the commas: all but the first begin with a blank. */
  function Indented(parts: seq<string>): (r: seq<string>)
    ensures |r| == |parts|
  {
    if parts == [] then [] else [" " + parts[0]] + Indented(parts[1..])
  }

  lemma {:induction false} JoinIsIndented(first: string, later: seq<string>)
    ensures Join([first] + later, ", ") == Join([first] + Indented(later), ",")
  {
    if later == [] {
      assert [first] + later == [first] && [first] + Indented(later) == [first];
    } else {
      JoinFirst(first, later, ", ");
      JoinFirst(first, Indented(later), ",");
      JoinBlank(later);
    }
  }

  lemma {:induction false} JoinBlank(later: seq<string>)
    requires later != []
    ensures Join(Indented(later), ",") == " " + Join(later, ", ")
  {
    var first, rest := later[0], later[1..];
    assert later == [first] + rest;
    if rest != [] {
      JoinBlank(rest);
      JoinFirst(first, rest, ", ");
      JoinFirst(" " + first, Indented(rest), ",");
      assert first + ", " + Join(rest, ", ") == first + "," + (" " + Join(rest, ", "));
    }
  }

  /** Clause texts without commas that do not begin with a blank. */
  ghost predicate Plain(parts: seq<string>) {
    forall p | p in parts :: p != "" && p[0] != ' ' && ',' !in p
  }

  lemma {:induction false} IndentedReadsTheSame(parts: seq<string>)
    requires Plain(parts)
    ensures AllLack(Indented(parts), ',') && ParseClauses(Indented(parts)) == ParseClauses(parts)
  {
    if parts != [] {
      assert parts == [parts[0]] + parts[1..];
      assert forall p | p in parts[1..] :: p in parts;
      IndentedReadsTheSame(parts[1..]);
      assert parts[0] in parts;
      assert (" " + parts[0])[1..] == parts[0];
      assert forall p | p in Indented(parts) :: p == " " + parts[0] || p in Indented(parts[1..]);
    }
  }

  lemma ClauseReads(column: string)
    requires IsColumn(column)
    ensures ParseClause(column + " = ?") == Some(Assignment(column, Placeholder))
    ensures ParseClause(column + " = FALSE") == Some(Assignment(column, False))
    ensures Plain([column + " = ?"]) && Plain([column + " = FALSE"])
  {
    var p, f := column + " = ?", column + " = FALSE";
    assert p[..|p| - 4] == column && p[|p| - 4..] == " = ?";
    assert f[..|f| - 8] == column && f[|f| - 8..] == " = FALSE";
    assert f[|f| - 1] == 'E' && " = ?"[3] == '?';
    assert f[|f| - 4..][3] == f[|f| - 1];
    assert column[0] in column;
    assert column[0] != ' ' && ',' !in column && ',' !in " = ?" && ',' !in " = FALSE";
  }

  function DnsAssignment(reset: bool): seq<Assignment> {
    if reset then [Assignment("dns_set", False)] else []
  }

  lemma OnlyClauseRead(clause: string, a: Assignment)
    requires Plain([clause]) && ParseClause(clause) == Some(a)
    ensures ParseClauses([clause]) == Some([a])
  {
    hide ParseClause;
    assert clause in [clause];
    assert SkipSpace(clause) == clause;
    assert [clause][1..] == [] && [a] + [] == [a];
  }

  lemma DnsClauseReads(reset: bool)
    ensures Plain(DnsClause(reset)) && ParseClauses(DnsClause(reset)) == Some(DnsAssignment(reset))
  {
    ClauseReads("dns_set");
    assert "dns_set" + " = FALSE" == "dns_set = FALSE";
    hide ParseClause, IsColumn, Plain;
    OnlyClauseRead("dns_set = FALSE", Assignment("dns_set", False));
    if !reset {
      NothingPlain();
    }
  }

  lemma NothingPlain()
    ensures Plain([]) && ParseClauses([]) == Some([])
  {
  }

  lemma {:induction false} ClausesRead(fs: seq<Field>, reset: bool)
    requires WellNamed(fs)
    ensures var parts := Clauses(fs) + DnsClause(reset);
      Plain(parts) && ParseClauses(parts) == Some(Assignments(fs) + DnsAssignment(reset))
  {
    if fs == [] {
      DnsClauseReads(reset);
      assert [] + DnsClause(reset) == DnsClause(reset) && [] + DnsAssignment(reset) == DnsAssignment(reset);
    } else {
      assert WellNamed(fs[1..]) by {
        assert forall i | 0 <= i < |fs| - 1 :: fs[1..][i] == fs[i + 1];
      }
      ClausesRead(fs[1..], reset);
      if fs[0].value.Some? {
        assert IsColumn(fs[0].column);
        var rest, others := Clauses(fs[1..]) + DnsClause(reset), Assignments(fs[1..]) + DnsAssignment(reset);
        hide WellNamed, ParseClauses, Plain, IsColumn;
        assert Clauses(fs) + DnsClause(reset) == [fs[0].column + " = ?"] + rest;
        assert Assignments(fs) + DnsAssignment(reset) == [Assignment(fs[0].column, Placeholder)] + others;
        OneMoreRead(fs[0].column, rest, others);
      } else {
        assert Clauses(fs) == Clauses(fs[1..]) && Assignments(fs) == Assignments(fs[1..]);
      }
    }
  }

  lemma OneMoreRead(column: string, rest: seq<string>, others: seq<Assignment>)
    requires IsColumn(column) && Plain(rest) && ParseClauses(rest) == Some(others)
    ensures Plain([column + " = ?"] + rest)
    ensures ParseClauses([column + " = ?"] + rest) == Some([Assignment(column, Placeholder)] + others)
  {
    ClauseReads(column);
    hide ParseClause, IsColumn;
    var clause := column + " = ?";
    assert Plain([clause]) && clause in [clause];
    assert SkipSpace(clause) == clause;
    assert ([clause] + rest)[1..] == rest;
  }

  lemma BodyIsParsed(body: string)
    ensures ParseUpdate(UPDATE + body + WHERE) == ParseClauses(Split(body, ','))
  {
    hide ParseClauses, Split;
    var sql := UPDATE + body + WHERE;
    assert sql[..|UPDATE|] == UPDATE && sql[|sql| - |WHERE|..] == WHERE;
    assert sql[|UPDATE|..|sql| - |WHERE|] == body;
  }

  lemma {:induction false} JoinedRead(parts: seq<string>)
    requires parts != [] && Plain(parts)
    ensures ParseClauses(Split(Join(parts, ", "), ',')) == ParseClauses(parts)
  {
    var first, later := parts[0], parts[1..];
    assert parts == [first] + later;
    var pieces := [first] + Indented(later);
    assert pieces[1..] == Indented(later);
    IndentedReadsTheSame(later);
    assert first in parts;
    JoinIsIndented(first, later);
    hide ParseClause, Join, Split;
    SplitJoin(pieces, ',');
  }

  lemma StatementParses(fs: seq<Field>, reset: bool)
    requires WellNamed(fs) && Clauses(fs) + DnsClause(reset) != []
    ensures ParseUpdate(UPDATE + Join(Clauses(fs) + DnsClause(reset), ", ") + WHERE) ==
      Some(Assignments(fs) + DnsAssignment(reset))
  {
    hide *;
    ClausesRead(fs, reset);
    JoinedRead(Clauses(fs) + DnsClause(reset));
    BodyIsParsed(Join(Clauses(fs) + DnsClause(reset), ", "));
  }

  // ---------------------------------------------------------------- what the statement means

  /** `after` is `before` with exactly the supplied fields set, and `dns_set` cleared on a reset. */
  ghost predicate Updated(before: Row, after: Row, fs: seq<Field>, reset: bool) {
    && (forall i | 0 <= i < |fs| ::
          Cell(after, fs[i].column) == if fs[i].value.Some? then fs[i].value else Cell(before, fs[i].column))
    && Cell(after, "dns_set") == (if reset then Some(Flag(false)) else Cell(before, "dns_set"))
    && (forall c: string | c != "dns_set" && (forall i | 0 <= i < |fs| :: fs[i].column != c) ::
          Cell(after, c) == Cell(before, c))
  }

  lemma {:induction false} AssignmentsUpdate(row: Row, fs: seq<Field>, reset: bool)
    requires WellNamed(fs)
    ensures var r := Assign(row, Assignments(fs) + DnsAssignment(reset), Values(fs));
      r.Some? && Updated(row, r.value, fs, reset)
    decreases fs
  {
    if fs == [] {
      assert [] + DnsAssignment(reset) == DnsAssignment(reset);
      assert [Assignment("dns_set", False)][1..] == [];
    } else {
      var f, rest := fs[0], fs[1..];
      var others := Assignments(rest) + DnsAssignment(reset);
      var row' := if f.value.Some? then row[f.column := f.value.value] else row;
      assert WellNamed(rest) by {
        assert forall i | 0 <= i < |rest| :: rest[i] == fs[i + 1];
      }
      AssignmentsUpdate(row', rest, reset);
      if f.value.Some? {
        var all := [Assignment(f.column, Placeholder)] + others;
        assert Assignments(fs) + DnsAssignment(reset) == all;
        assert all[1..] == others;
        assert ([f.value.value] + Values(rest))[1..] == Values(rest);
      } else {
        assert Assignments(fs) == Assignments(rest) && Values(fs) == Values(rest);
      }
      var r := Assign(row', others, Values(rest)).value;
      assert Assign(row, Assignments(fs) + DnsAssignment(reset), Values(fs)) == Some(r);
      hide Assign, Assignments, DnsAssignment, Values;
      HeadUpdated(row, row', r, fs, reset);
    }
  }

  lemma HeadUpdated(row: Row, row': Row, r: Row, fs: seq<Field>, reset: bool)
    requires WellNamed(fs) && fs != [] && Updated(row', r, fs[1..], reset)
    requires row' == if fs[0].value.Some? then row[fs[0].column := fs[0].value.value] else row
    ensures Updated(row, r, fs, reset)
  {
    assert forall i | 0 < i < |fs| :: fs[i] == fs[1..][i - 1] && fs[i].column != fs[0].column;
    assert forall i | 0 <= i < |fs| - 1 :: fs[1..][i] == fs[i + 1];
  }

  lemma ColumnsReadable()
    ensures IsColumn("name")
    ensures IsColumn("server_ip")
    ensures IsColumn("server_port")
    ensures IsColumn("remote_port")
    ensures IsColumn("protocol")
    ensures IsColumn("subdomain")
    ensures IsColumn("domain")
    ensures IsColumn("online")
    ensures IsColumn("server_id")
    ensures IsColumn("client_id")
    ensures IsColumn("create_srv")
    ensures IsColumn("proxy_protocol")
  {
  }

  lemma FieldsAreWellNamed(req: UpdateRequest)
    ensures WellNamed(Fields(req))
  {
    ColumnsAre(req);
    ColumnsNumbered();
    ColumnsReadable();
    var fs := Fields(req);
    hide Fields, ColumnNumber, IsColumn, COLUMNS;
    assert forall i | 0 <= i < 12 :: fs[i].column == COLUMNS[i];
  }

  /** The whole row after an update, column by column; nothing else in the row changes. */
  ghost predicate MeansUpdate(req: UpdateRequest, before: Row, after: Row) {
    && Cell(after, "name") == (match req.name case None => Cell(before, "name") case Some(v) => Some(Words(v)))
    && Cell(after, "server_ip") ==
       (match req.serverIp case None => Cell(before, "server_ip") case Some(v) => Some(Words(v)))
    && Cell(after, "server_port") ==
       (match req.serverPort case None => Cell(before, "server_port") case Some(v) => Some(Number(v)))
    && Cell(after, "remote_port") ==
       (match req.remotePort case None => Cell(before, "remote_port") case Some(v) => Some(Number(v)))
    && Cell(after, "protocol") ==
       (match req.protocol case None => Cell(before, "protocol") case Some(v) => Some(Words(v)))
    && Cell(after, "subdomain") ==
       (match req.subdomain case None => Cell(before, "subdomain") case Some(v) => Some(Words(v)))
    && Cell(after, "domain") == (match req.domain case None => Cell(before, "domain") case Some(v) => Some(Words(v)))
    && Cell(after, "online") == (match req.online case None => Cell(before, "online") case Some(v) => Some(Flag(v)))
    && Cell(after, "server_id") ==
       (match req.serverId case None => Cell(before, "server_id")
        case Some(v) => Some(if v < 0 then Null else Number(v)))
    && Cell(after, "client_id") ==
       (match req.clientId case None => Cell(before, "client_id")
        case Some(v) => Some(if v == "-" then Null else Words(v)))
    && Cell(after, "create_srv") ==
       (match req.createSrv case None => Cell(before, "create_srv") case Some(v) => Some(Flag(v)))
    && Cell(after, "proxy_protocol") ==
       (match req.proxyProtocol case None => Cell(before, "proxy_protocol") case Some(v) => Some(Flag(v)))
    && Cell(after, "dns_set") ==
       (if req.serverId.Some? || req.subdomain.Some? || req.domain.Some? || req.createSrv.Some? || req.remotePort.Some?
        then Some(Flag(false)) else Cell(before, "dns_set"))
    && forall c | c !in COLUMNS :: Cell(after, c) == Cell(before, c)
  }

  lemma ExecuteAddresses(table: Table, sql: string, assignments: seq<Assignment>, values: seq<SqlValue>, id: u32,
                         after: Row)
    requires ParseUpdate(sql) == Some(assignments)
    requires id in table ==> Assign(table[id], assignments, values) == Some(after)
    ensures Execute(table, Query(sql, values + [Number(id)])) == Some(if id in table then table[id := after] else table)
  {
    hide ParseUpdate, Assign;
    var binds := values + [Number(id)];
    assert binds[..|binds| - 1] == values;
  }

  /**
   * Executing the statement with its arguments updates exactly the supplied columns of exactly the addressed row,
   * for every combination of supplied fields.
   */
  lemma UpdatePreservesMeaning(table: Table, id: u32, req: UpdateRequest)
    requires !SuppliesNothing(req)
    ensures var r := Execute(table, Statement(id, req));
      && r.Some? && r.value.Keys == table.Keys
      && (forall other | other in table && other != id :: r.value[other] == table[other])
      && (id in table ==> MeansUpdate(req, table[id], r.value[id]))
  {
    var fs, reset := Fields(req), AffectsDns(req);
    FieldsAreWellNamed(req);
    NothingToSet(req);
    var q := Statement(id, req);
    assert q.sql == UPDATE + Join(Clauses(fs) + DnsClause(reset), ", ") + WHERE && q.binds == Values(fs) + [Number(id)];
    hide *;
    StatementParses(fs, reset);
    var assignments := Assignments(fs) + DnsAssignment(reset);
    var after := map[];
    if id in table {
      AssignmentsUpdate(table[id], fs, reset);
      after := Assign(table[id], assignments, Values(fs)).value;
      UpdatedMeans(req, table[id], after);
    }
    ExecuteAddresses(table, q.sql, assignments, Values(fs), id, after);
  }

  lemma UpdatedMeans(req: UpdateRequest, before: Row, after: Row)
    requires Updated(before, after, Fields(req), AffectsDns(req))
    ensures MeansUpdate(req, before, after)
  {
    ColumnsAre(req);
    EndpointFields(req);
    AddressFields(req);
    PlacementFields(req);
    ColumnsNumbered();
    var fs := Fields(req);
    hide Fields, ColumnNumber, COLUMNS, Cell;
    assert forall i | 0 <= i < 12 :: fs[i].column == COLUMNS[i];
  }

  // ---------------------------------------------------------------- the id of a new tunnel

  const LAST_ID: u32 := 0xFFFF_FFFF

  /** The ids in use; the database column is wider than the ids. */
  function Taken(ids: seq<u64>): set<u32> {
    set n | n in ids && 0 < n <= LAST_ID
  }

  lemma {:induction false} Pigeonhole(taken: set<u32>, k: nat)
    requires forall n | 1 <= n <= k :: n in taken
    ensures k <= |taken|
  {
    if k > 0 {
      assert k in taken;
      assert forall n | 1 <= n <= k - 1 :: n in taken - {k};
      Pigeonhole(taken - {k}, k - 1);
    }
  }

  /**
   * The least positive number that is not taken, at most one above the number of taken ids. When every id is taken
   * the counter wraps round to zero, as unsigned arithmetic does in a release build.
   */
  method LowestFreeId(ids: seq<u64>) returns (id: u32)
    ensures id > 0 ==> id !in ids && forall n: u64 | 1 <= n < id :: n in ids
    ensures id == 0 <==> forall n: u64 | 1 <= n <= 0xFFFF_FFFF :: n in ids
    ensures id <= |Taken(ids)| + 1 <= |ids| + 1
  {
    var taken := Taken(ids);
    id := 1;
    while id in taken
      invariant forall n | 1 <= n < id :: n in taken
      invariant id == 0 ==> forall n: u32 | n >= 1 :: n in taken
      decreases if id == 0 then 0 else |taken| + 2 - id
    {
      Pigeonhole(taken, id);
      id := if id == LAST_ID then 0 else id + 1;
    }
    if id > 0 {
      Pigeonhole(taken, id - 1);
    }
    TakenSize(ids);
    forall n: u64
      ensures 1 <= n <= 0xFFFF_FFFF ==> (n in ids <==> n in taken)
    {
      TakenHolds(ids, n);
    }
  }

  lemma TakenHolds(ids: seq<u64>, n: u64)
    ensures 1 <= n <= 0xFFFF_FFFF ==> (n in ids <==> n in Taken(ids))
  {
  }

  lemma {:induction false} TakenSize(ids: seq<u64>)
    ensures |Taken(ids)| <= |ids|
  {
    if ids != [] {
      var n, last := |ids| - 1, ids[|ids| - 1];
      TakenSize(ids[..n]);
      assert ids == ids[..n] + [last];
      if 0 < last <= LAST_ID {
        assert Taken(ids) == Taken(ids[..n]) + {last};
      } else {
        assert Taken(ids) == Taken(ids[..n]);
      }
    }
  }
}
