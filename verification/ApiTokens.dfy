/** The API token store: environment tokens, runtime tokens with a public id, and the
    persistence file that is replayed at start-up. */
module ApiTokens {
  import opened Common
  import opened EnvEntries

  datatype Source = Env | Runtime(id: string, createdAt: string)

  datatype Entry = Entry(org: string, role: Role, source: Source)

  datatype Store = Store(byToken: map<string, Entry>, idToToken: map<string, string>)

  /** One row of the persistence file; it has no role column. */
  datatype Row = Row(token: string, id: string, org: string, createdAt: string)

  // ---- Operations on the store -------------------------------------------------------

  function Issued(s: Store, org: string, token: string, id: string, at: string): Store {
    Store(s.byToken[token := Entry(org, LEGACY_ROLE, Runtime(id, at))], s.idToToken[id := token])
  }

  /** The id belongs to the org and names a runtime token. */
  predicate Revocable(s: Store, id: string, org: string) {
    && id in s.idToToken && s.idToToken[id] in s.byToken
    && var e := s.byToken[s.idToToken[id]]; e.org == org && e.source.Runtime?
  }

  /** Revocation, including the clean-up of an id whose token is gone. */
  function Revoked(s: Store, id: string, org: string): Store {
    if id !in s.idToToken then s
    else if s.idToToken[id] !in s.byToken then s.(idToToken := s.idToToken - {id})
    else if Revocable(s, id, org) then Store(s.byToken - {s.idToToken[id]}, s.idToToken - {id})
    else s
  }

  function Replayed1(s: Store, p: Row): Store {
    if p.token == "" || p.id == "" then s else Issued(s, p.org, p.token, p.id, p.createdAt)
  }

  function Replayed(s: Store, rows: seq<Row>): Store
    decreases |rows|
  {
    if rows == [] then s else Replayed(Replayed1(s, rows[0]), rows[1..])
  }

  /** The row that persisting writes for a token. */
  function RowOf(token: string, e: Entry): Row
    requires e.source.Runtime?
  {
    Row(token, e.source.id, e.org, e.source.createdAt)
  }

  ghost predicate InStore(s: Store, p: Row) {
    p.token in s.byToken && s.byToken[p.token].source.Runtime? && p == RowOf(p.token, s.byToken[p.token])
  }

  /** The rows are the store's runtime tokens, each once, in whatever order. */
  ghost predicate Lists(rows: seq<Row>, s: Store) {
    && (forall p :: p in rows <==> InStore(s, p))
    && (forall i, j :: 0 <= i < j < |rows| ==> rows[i] != rows[j])
  }

  // ---- Consistency -------------------------------------------------------------------

  ghost predicate EnvOnly(env: map<string, Entry>) {
    forall t :: t in env ==> env[t].source.Env?
  }

  /** The environment's tokens are all there and are the only ones of that source. */
  ghost predicate KeepsEnv(env: map<string, Entry>, s: Store) {
    && (forall t :: t in env ==> t in s.byToken && s.byToken[t] == env[t])
    && (forall t :: t in s.byToken && s.byToken[t].source.Env? ==> t in env)
  }

  /** The id index and the runtime part of the token map are mutual inverses. */
  ghost predicate MutualInverses(s: Store) {
    && (forall t :: t in s.byToken && s.byToken[t].source.Runtime?
                    ==> var id := s.byToken[t].source.id; id in s.idToToken && s.idToToken[id] == t)
    && (forall id :: id in s.idToToken
                     ==> var t := s.idToToken[id];
                         t in s.byToken && s.byToken[t].source.Runtime? && s.byToken[t].source.id == id)
  }

  /** What every runtime token shares: a token, an id, and the legacy role. */
  ghost predicate RuntimeOk(s: Store) {
    forall t :: t in s.byToken && s.byToken[t].source.Runtime?
                ==> t != "" && s.byToken[t].source.id != "" && s.byToken[t].role == Admin
  }

  ghost predicate Consistent(env: map<string, Entry>, s: Store) {
    EnvOnly(env) && KeepsEnv(env, s) && MutualInverses(s) && RuntimeOk(s)
  }

  lemma {:induction false} IssueKeeps(env: map<string, Entry>, s: Store, org: string, token: string, id: string,
                                      at: string)
    requires Consistent(env, s)
    requires token != "" && id != "" && token !in s.byToken && id !in s.idToToken
    ensures Consistent(env, Issued(s, org, token, id, at))
  {
    var r := Issued(s, org, token, id, at);
    IssueKeepsInverses(s, org, token, id, at);
    assert KeepsEnv(env, r) by { hide MutualInverses, RuntimeOk; }
    assert RuntimeOk(r) by { hide MutualInverses, KeepsEnv; }
    hide MutualInverses, KeepsEnv, RuntimeOk, EnvOnly, Issued;
  }

  lemma {:induction false} IssueKeepsInverses(s: Store, org: string, token: string, id: string, at: string)
    requires MutualInverses(s) && token !in s.byToken && id !in s.idToToken
    ensures MutualInverses(Issued(s, org, token, id, at))
  {
  }

  lemma {:induction false} RevokeKeeps(env: map<string, Entry>, s: Store, id: string, org: string)
    requires Consistent(env, s)
    ensures Consistent(env, Revoked(s, id, org))
  {
    var r := Revoked(s, id, org);
    assert MutualInverses(r) by { hide KeepsEnv, RuntimeOk, EnvOnly; }
    assert KeepsEnv(env, r) by { hide RuntimeOk; }
    assert RuntimeOk(r) by { hide MutualInverses, KeepsEnv; }
  }

  /** Revocation removes exactly the one runtime token the id names, for its own org, and
      otherwise nothing: never an environment token. */
  lemma {:induction false} RevokeRemovesExactlyOne(env: map<string, Entry>, s: Store, id: string, org: string)
    requires Consistent(env, s)
    ensures !Revocable(s, id, org) ==> Revoked(s, id, org) == s
    ensures Revocable(s, id, org) ==>
              var t := s.idToToken[id];
              && t !in env
              && s.byToken[t].source == Runtime(id, s.byToken[t].source.createdAt)
              && Revoked(s, id, org).byToken == s.byToken - {t}
              && Revoked(s, id, org).idToToken == s.idToToken - {id}
    ensures Revocable(s, id, org)
            <==> exists t :: t in s.byToken && s.byToken[t].org == org
                             && s.byToken[t].source.Runtime? && s.byToken[t].source.id == id
  {
    hide RuntimeOk;
    if Revocable(s, id, org) {
      var t := s.idToToken[id];
      assert t in s.byToken && s.byToken[t].org == org && s.byToken[t].source.Runtime? && s.byToken[t].source.id == id;
    }
  }

  // ---- Replay ------------------------------------------------------------------------

  /** Rows with distinct tokens and distinct ids, none blank, none an environment token. */
  ghost predicate FileOk(env: map<string, Entry>, rows: seq<Row>) {
    && (forall i :: 0 <= i < |rows| ==> rows[i].token != "" && rows[i].id != "" && rows[i].token !in env)
    && (forall i, j :: 0 <= i < j < |rows| ==> rows[i].token != rows[j].token && rows[i].id != rows[j].id)
  }

  lemma {:induction false} ListedFileIsOk(env: map<string, Entry>, s: Store, rows: seq<Row>)
    requires Consistent(env, s) && Lists(rows, s)
    ensures FileOk(env, rows)
  {
    forall i | 0 <= i < |rows|
      ensures rows[i].token != "" && rows[i].id != "" && rows[i].token !in env && InStore(s, rows[i])
    {
      assert rows[i] in rows;
    }
    forall i, j | 0 <= i < j < |rows|
      ensures rows[i].token != rows[j].token && rows[i].id != rows[j].id
    {
      assert InStore(s, rows[i]) && InStore(s, rows[j]);
      hide KeepsEnv, EnvOnly, RuntimeOk, Lists;
      assert rows[i] != rows[j];
    }
  }

  lemma {:induction false} ListedIdsDiffer(s: Store, rows: seq<Row>)
    requires MutualInverses(s) && Lists(rows, s)
    ensures forall i, j :: 0 <= i < j < |rows| ==> rows[i].id != rows[j].id
  {
    forall i, j | 0 <= i < j < |rows| ensures rows[i].id != rows[j].id {
      assert InStore(s, rows[i]) && InStore(s, rows[j]);
    }
  }

  lemma {:induction false} ReplayOne(s: Store, rows: seq<Row>, last: Row)
    ensures Replayed(s, rows + [last]) == Replayed1(Replayed(s, rows), last)
    decreases |rows|
  {
    hide Replayed1;
    if rows == [] {
      assert ([last])[1..] == [];
      assert Replayed(Replayed1(s, last), []) == Replayed1(s, last);
    } else {
      assert (rows + [last])[1..] == rows[1..] + [last];
      ReplayOne(Replayed1(s, rows[0]), rows[1..], last);
    }
  }

  /** Replaying a proper file over the environment gives a consistent store whose runtime
      tokens are exactly the file's rows. */
  lemma {:induction false} ReplayMeans(env: map<string, Entry>, rows: seq<Row>)
    requires EnvOnly(env) && FileOk(env, rows)
    ensures Consistent(env, Replayed(Store(env, map[]), rows))
    ensures Lists(rows, Replayed(Store(env, map[]), rows))
    decreases |rows|
  {
    var base := Store(env, map[]);
    if rows == [] {
      assert Consistent(env, base);
      assert Lists(rows, base);
    } else {
      var n := |rows| - 1;
      var p := rows[n];
      ReplayMeans(env, rows[..n]);
      var s := Replayed(base, rows[..n]);
      assert rows == rows[..n] + [p];
      ReplayOne(base, rows[..n], p);
      FreshRow(env, s, rows[..n], p);
      IssueKeeps(env, s, p.org, p.token, p.id, p.createdAt);
      ListsAppend(s, rows[..n], p);
    }
  }

  lemma {:induction false} FreshRow(env: map<string, Entry>, s: Store, rows: seq<Row>, p: Row)
    requires Consistent(env, s) && Lists(rows, s) && FileOk(env, rows + [p])
    ensures p.token !in s.byToken && p.id !in s.idToToken && p.token != "" && p.id != ""
  {
    var all := rows + [p];
    assert all[|rows|] == p;
    assert forall i :: 0 <= i < |rows| ==> all[i] == rows[i];
    if p.token in s.byToken {
      assert s.byToken[p.token].source.Runtime?;
      HasRow(s, rows, p.token);
    }
    if p.id in s.idToToken {
      var t := s.idToToken[p.id];
      HasRow(s, rows, t);
    }
  }

  lemma {:induction false} HasRow(s: Store, rows: seq<Row>, t: string)
    requires Lists(rows, s) && t in s.byToken && s.byToken[t].source.Runtime?
    ensures exists i :: 0 <= i < |rows| && rows[i].token == t && rows[i].id == s.byToken[t].source.id
  {
    var p := RowOf(t, s.byToken[t]);
    assert InStore(s, p);
    assert p in rows;
    var i :| 0 <= i < |rows| && rows[i] == p;
  }

  lemma {:induction false} ListsAppend(s: Store, rows: seq<Row>, p: Row)
    requires Lists(rows, s) && p.token !in s.byToken
    ensures Lists(rows + [p], Issued(s, p.org, p.token, p.id, p.createdAt))
  {
    var r := Issued(s, p.org, p.token, p.id, p.createdAt);
    var all := rows + [p];
    forall q ensures q in all <==> InStore(r, q) {
      assert q in all <==> q in rows || q == p;
      if q.token == p.token {
        assert q !in rows by { assert !InStore(s, q); }
      } else {
        assert InStore(r, q) == InStore(s, q);
      }
    }
    assert p !in rows by { assert !InStore(s, p); }
  }

  /** A consistent store is determined by the environment and its rows. */
  lemma {:induction false} RowsDetermineTheStore(env: map<string, Entry>, s: Store, r: Store, rows: seq<Row>)
    requires Consistent(env, s) && Consistent(env, r) && Lists(rows, s) && Lists(rows, r)
    ensures s == r
  {
    SameTokens(env, s, r, rows);
    SameTokens(env, r, s, rows);
    assert s.byToken == r.byToken;
    hide KeepsEnv, EnvOnly, RuntimeOk, Lists;
    assert s.idToToken == r.idToToken;
  }

  lemma {:induction false} SameTokens(env: map<string, Entry>, s: Store, r: Store, rows: seq<Row>)
    requires Consistent(env, s) && Consistent(env, r) && Lists(rows, s) && Lists(rows, r)
    ensures forall t :: t in s.byToken ==> t in r.byToken && r.byToken[t] == s.byToken[t]
  {
    hide MutualInverses;
    forall t | t in s.byToken ensures t in r.byToken && r.byToken[t] == s.byToken[t] {
      if s.byToken[t].source.Runtime? {
        var p := RowOf(t, s.byToken[t]);
        assert InStore(s, p);
        assert InStore(r, p);
      }
    }
  }

  /** Replaying the file over the same environment restores the store exactly, tokens, ids,
      orgs, times and roles, if and only if the file lists the store. */
  lemma {:induction false} ReplayRestoresExactly(env: map<string, Entry>, s: Store, rows: seq<Row>)
    requires Consistent(env, s) && FileOk(env, rows)
    ensures Replayed(Store(env, map[]), rows) == s <==> Lists(rows, s)
  {
    ReplayMeans(env, rows);
    if Lists(rows, s) {
      RowsDetermineTheStore(env, Replayed(Store(env, map[]), rows), s, rows);
    }
  }

  /** The rows that count: those with a token and an id. */
  function Proper(rows: seq<Row>): seq<Row> {
    if rows == [] then []
    else (if rows[0].token == "" || rows[0].id == "" then [] else [rows[0]]) + Proper(rows[1..])
  }

  /** Blank rows of a file are skipped. */
  lemma {:induction false} BlankRowsAreSkipped(s: Store, rows: seq<Row>)
    ensures Replayed(s, rows) == Replayed(s, Proper(rows))
    decreases |rows|
  {
    if rows != [] {
      BlankRowsAreSkipped(Replayed1(s, rows[0]), rows[1..]);
      if rows[0].token != "" && rows[0].id != "" {
        assert ([rows[0]] + Proper(rows[1..]))[1..] == Proper(rows[1..]);
      } else {
        assert [] + Proper(rows[1..]) == Proper(rows[1..]);
      }
    }
  }

  /** On any store at all, revocation touches no token but the one it may revoke, and leaves
      no id of its argument that points nowhere. */
  lemma {:induction false} RevokeOnAnyStore(s: Store, id: string, org: string)
    ensures var r := Revoked(s, id, org);
            && (!Revocable(s, id, org) ==> r.byToken == s.byToken)
            && (id in r.idToToken ==> r.idToToken[id] in r.byToken)
            && (forall k :: k != id && k in s.idToToken ==> k in r.idToToken && r.idToToken[k] == s.idToToken[k])
  {
  }

  // ---- Runs with restarts ------------------------------------------------------------

  /** The process and its disk. A missing file counts as an empty one. */
  datatype World = World(env: map<string, Entry>, store: Store, file: seq<Row>)

  /** A call and whether its write of the file, if any, reached the disk; without a
      configured path no write ever does. */
  datatype Event =
    | Issue(org: string, token: string, id: string, at: string, saved: bool)
    | Revoke(rid: string, rorg: string, saved: bool)
    | Restart

  /** Generated tokens and ids are non-blank and new. */
  predicate Fresh(w: World, ev: Event) {
    ev.Issue? ==> ev.token != "" && ev.id != "" && ev.token !in w.store.byToken && ev.id !in w.store.idToToken
  }

  function StoreAfter(w: World, ev: Event): Store {
    match ev
    case Issue(org, token, id, at, _) => Issued(w.store, org, token, id, at)
    case Revoke(id, org, _) => Revoked(w.store, id, org)
    case Restart => Replayed(Store(w.env, map[]), w.file)
  }

  /** The call rewrites the file: an issue always, a revoke when it removes a token. */
  predicate Writes(w: World, ev: Event) {
    match ev
    case Issue(_, _, _, _, saved) => saved
    case Revoke(id, org, saved) => saved && Revocable(w.store, id, org)
    case Restart => false
  }

  /** The call has something to write: an issue always, a revoke that finds its token. */
  predicate Matters(w: World, ev: Event) {
    match ev
    case Issue(_, _, _, _, _) => true
    case Revoke(id, org, _) => Revocable(w.store, id, org)
    case Restart => false
  }

  ghost predicate Step(w: World, ev: Event, v: World) {
    && Fresh(w, ev) && v.env == w.env && v.store == StoreAfter(w, ev)
    && (if Writes(w, ev) then Lists(v.file, v.store) else v.file == w.file)
  }

  ghost predicate WorldOk(w: World) {
    Consistent(w.env, w.store) && FileOk(w.env, w.file)
  }

  /** A restart now would change nothing. */
  ghost predicate Synced(w: World) {
    Replayed(Store(w.env, map[]), w.file) == w.store
  }

  lemma {:induction false} StepKeepsWorldOk(w: World, ev: Event, v: World)
    requires WorldOk(w) && Step(w, ev, v)
    ensures WorldOk(v)
  {
    match ev
    case Issue(org, token, id, at, _) =>
      IssueKeeps(w.env, w.store, org, token, id, at);
      hide Consistent;
      if Writes(w, ev) { ListedFileIsOk(v.env, v.store, v.file); }
    case Revoke(id, org, _) =>
      RevokeKeeps(w.env, w.store, id, org);
      hide Consistent;
      if Writes(w, ev) { ListedFileIsOk(v.env, v.store, v.file); }
    case Restart =>
      ReplayMeans(w.env, w.file);
  }

  /** A run: worlds joined by events. */
  ghost predicate Run(ws: seq<World>, evs: seq<Event>) {
    |ws| == |evs| + 1 && forall i :: 0 <= i < |evs| ==> Step(ws[i], evs[i], ws[i + 1])
  }

  /** A process started on a fresh disk. */
  ghost predicate Start(w: World) {
    EnvOnly(w.env) && w.store == Store(w.env, map[]) && w.file == []
  }

  /** In every run: the id index and the runtime tokens stay mutual inverses, and the
      environment's tokens stay exactly as configured. */
  lemma {:induction false} RunKeepsWorldOk(ws: seq<World>, evs: seq<Event>, k: nat)
    requires Run(ws, evs) && Start(ws[0]) && k <= |evs|
    ensures WorldOk(ws[k]) && ws[k].env == ws[0].env
    ensures MutualInverses(ws[k].store) && KeepsEnv(ws[0].env, ws[k].store)
  {
    if k > 0 {
      RunKeepsWorldOk(ws, evs, k - 1);
      assert Step(ws[k - 1], evs[k - 1], ws[k]);
      StepKeepsWorldOk(ws[k - 1], evs[k - 1], ws[k]);
    }
  }

  /** From a state a restart would restore, one call leaves such a state if and only if its
      write reached the disk or it had nothing to write. */
  lemma {:induction false} SyncedExactlyWhenSaved(w: World, ev: Event, v: World)
    requires WorldOk(w) && Synced(w) && Step(w, ev, v)
    ensures Synced(v) <==> Writes(w, ev) || !Matters(w, ev)
  {
    MattersMeansChange(w, ev, v);
    if Writes(w, ev) {
      WriteSyncs(w, ev, v);
    }
  }

  /** From a synced state, a call changes the store exactly when it has something to write. */
  lemma {:induction false} MattersMeansChange(w: World, ev: Event, v: World)
    requires WorldOk(w) && Synced(w) && Step(w, ev, v)
    ensures v.store != w.store <==> Matters(w, ev)
  {
    match ev
    case Issue(_, token, _, _, _) => assert token in v.store.byToken && token !in w.store.byToken;
    case Revoke(id, org, _) =>
      RevokeRemovesExactlyOne(w.env, w.store, id, org);
      if Revocable(w.store, id, org) {
        assert id in w.store.idToToken && id !in v.store.idToToken;
      }
    case Restart =>
  }

  /** A write that reaches the disk makes the next restart exact, whatever was lost before. */
  lemma {:induction false} WriteSyncs(w: World, ev: Event, v: World)
    requires WorldOk(w) && Step(w, ev, v) && Writes(w, ev)
    ensures Synced(v)
  {
    StepKeepsWorldOk(w, ev, v);
    ReplayRestoresExactly(v.env, v.store, v.file);
  }

  /** A point of a run at which a restart would change nothing for sure: its start, or just
      after a write that reached the disk. */
  predicate SavePoint(ws: seq<World>, evs: seq<Event>, k: nat)
    requires |ws| == |evs| + 1
  {
    k == 0 || (k <= |evs| && Writes(ws[k - 1], evs[k - 1]))
  }

  /** If since some save point every call with something to write got it to the disk, a restart
      restores the accept set, the index and so every listing. */
  lemma {:induction false} RestartAfterRunIsExact(ws: seq<World>, evs: seq<Event>, k: nat, n: nat)
    requires Run(ws, evs) && Start(ws[0]) && k <= n <= |evs| && SavePoint(ws, evs, k)
    requires forall i :: k <= i < n ==> Writes(ws[i], evs[i]) || !Matters(ws[i], evs[i])
    ensures Synced(ws[n])
    decreases n
  {
    if n == 0 {
      assert Replayed(Store(ws[0].env, map[]), []) == Store(ws[0].env, map[]);
    } else {
      hide Start, Step, WorldOk, Synced, Writes, Matters, MutualInverses, KeepsEnv;
      RunKeepsWorldOk(ws, evs, n - 1);
      assert Step(ws[n - 1], evs[n - 1], ws[n]);
      if n == k {
        WriteSyncs(ws[n - 1], evs[n - 1], ws[n]);
      } else {
        RestartAfterRunIsExact(ws, evs, k, n - 1);
        SyncedExactlyWhenSaved(ws[n - 1], evs[n - 1], ws[n]);
      }
    }
  }

  /** A revocation whose write is lost is undone by the next restart: the token is accepted
      again with its old account. */
  lemma {:induction false} UnsavedRevocationComesBack(w: World, id: string, org: string, v: World, u: World)
    requires WorldOk(w) && Synced(w) && Revocable(w.store, id, org)
    requires Step(w, Revoke(id, org, false), v) && Step(v, Restart, u)
    ensures w.store.idToToken[id] !in v.store.byToken
    ensures u.store == w.store && w.store.idToToken[id] in u.store.byToken
  {
  }

  /** One token issued and saved, revoked with the write lost, and a restart. */
  const LOST_ROW: Row := Row("nv_t", "key-1", "acme", "now")

  const LOST_WORLDS: seq<World> :=
    var empty := Store(map[], map[]);
    var one := Issued(empty, "acme", "nv_t", "key-1", "now");
    [World(map[], empty, []), World(map[], one, [LOST_ROW]),
     World(map[], empty, [LOST_ROW]), World(map[], one, [LOST_ROW])]

  const LOST_EVENTS: seq<Event> :=
    [Issue("acme", "nv_t", "key-1", "now", true), Revoke("key-1", "acme", false), Restart]

  lemma {:induction false} LostRevocation()
    ensures Run(LOST_WORLDS, LOST_EVENTS) && Start(LOST_WORLDS[0])
    ensures "nv_t" !in LOST_WORLDS[2].store.byToken && "nv_t" in LOST_WORLDS[3].store.byToken
  {
    LostIssue();
    LostRevoke();
    LostRestart();
    hide Step;
  }

  lemma {:induction false} LostIssue()
    ensures Step(LOST_WORLDS[0], LOST_EVENTS[0], LOST_WORLDS[1])
  {
    var one := LOST_WORLDS[1].store;
    forall p ensures p in [LOST_ROW] <==> InStore(one, p) {
    }
    assert Lists([LOST_ROW], one);
  }

  lemma {:induction false} LostRevoke()
    ensures Step(LOST_WORLDS[1], LOST_EVENTS[1], LOST_WORLDS[2])
  {
    var one := LOST_WORLDS[1].store;
    assert one.byToken - {"nv_t"} == map[] && one.idToToken - {"key-1"} == map[];
  }

  lemma {:induction false} LostRestart()
    ensures Step(LOST_WORLDS[2], LOST_EVENTS[2], LOST_WORLDS[3])
  {
    assert ([LOST_ROW])[1..] == [];
    assert Replayed(Store(map[], map[]), [LOST_ROW]) == Replayed1(Store(map[], map[]), LOST_ROW);
  }

  // ---- The object --------------------------------------------------------------------

  datatype TokenInfo = TokenInfo(id: string, org: string, createdAt: string)

  /** The store behind its lock, and the file it persists to. */
  class TokenStore {
    const env: map<string, Entry>
    var byToken: map<string, Entry>
    var idToToken: map<string, string>
    var file: seq<Row>

    function View(): World
      reads this
    {
      World(env, Store(byToken, idToToken), file)
    }

    /** Environment tokens first, then the file replayed over them. */
    constructor (accounts: map<string, Account>, rows: seq<Row>)
      ensures env == map t | t in accounts :: Entry(accounts[t].org, accounts[t].role, Env)
      ensures View() == World(env, Replayed(Store(env, map[]), rows), rows)
      ensures EnvOnly(env)
    {
      env := map t | t in accounts :: Entry(accounts[t].org, accounts[t].role, Env);
      byToken := map t | t in accounts :: Entry(accounts[t].org, accounts[t].role, Env);
      idToToken := map[];
      file := rows;
      new;
      LoadPersisted(rows);
    }

    method LoadPersisted(rows: seq<Row>)
      modifies this`byToken, this`idToToken
      ensures View().store == Replayed(old(View().store), rows)
    {
      var i := 0;
      while i < |rows|
        invariant 0 <= i <= |rows|
        invariant Replayed(View().store, rows[i..]) == Replayed(old(View().store), rows)
      {
        assert rows[i..][1..] == rows[i + 1..];
        var p := rows[i];
        if p.token != "" && p.id != "" {
          byToken := byToken[p.token := Entry(p.org, LEGACY_ROLE, Runtime(p.id, p.createdAt))];
          idToToken := idToToken[p.id := p.token];
        }
        i := i + 1;
      }
    }

    /** The runtime tokens as rows, in the order the map happens to yield them. */
    method RuntimeRows() returns (rows: seq<Row>)
      ensures Lists(rows, View().store)
    {
      rows := [];
      var rest := byToken.Keys;
      while rest != {}
        invariant rest <= byToken.Keys
        invariant forall p :: p in rows <==> InStore(View().store, p) && p.token !in rest
        invariant forall i, j :: 0 <= i < j < |rows| ==> rows[i] != rows[j]
        decreases rest
      {
        var token :| token in rest;
        var e := byToken[token];
        ghost var was := rows;
        if e.source.Runtime? {
          assert forall p :: p in rows ==> p.token != token;
          rows := rows + [RowOf(token, e)];
        }
        rest := rest - {token};
        assert forall p :: p in rows <==> p in was || (e.source.Runtime? && p == RowOf(token, e));
      }
    }

    /** Rewrites the file unless the disk fails; a failure is only logged. */
    method Persist(saved: bool)
      modifies this`file
      ensures if saved then Lists(file, View().store) else file == old(file)
    {
      if saved {
        file := RuntimeRows();
      }
    }

    method IssueToken(org: string, token: string, id: string, at: string, saved: bool)
      requires Fresh(View(), Issue(org, token, id, at, saved))
      modifies this`byToken, this`idToToken, this`file
      ensures Step(old(View()), Issue(org, token, id, at, saved), View())
    {
      byToken := byToken[token := Entry(org, LEGACY_ROLE, Runtime(id, at))];
      idToToken := idToToken[id := token];
      Persist(saved);
    }

    method RevokeToken(id: string, org: string, saved: bool) returns (removed: bool)
      modifies this`byToken, this`idToToken, this`file
      ensures removed <==> old(Revocable(View().store, id, org))
      ensures Step(old(View()), Revoke(id, org, saved), View())
    {
      if id !in idToToken {
        return false;
      }
      var token := idToToken[id];
      if token !in byToken {
        idToToken := idToToken - {id};
        return false;
      }
      var e := byToken[token];
      if e.org != org || !e.source.Runtime? {
        return false;
      }
      byToken := byToken - {token};
      idToToken := idToToken - {id};
      Persist(saved);
      return true;
    }

    /** The org and role a presented token stands for. */
    method Resolve(presented: string) returns (r: Option<Account>)
      ensures r.Some? <==> presented in byToken
      ensures r.Some? ==> r.value == Account(byToken[presented].org, byToken[presented].role)
    {
      if presented in byToken {
        return Some(Account(byToken[presented].org, byToken[presented].role));
      }
      return None;
    }

    /** An org's runtime tokens: one row per token, environment tokens never. */
    method ListRuntime(org: string) returns (infos: seq<TokenInfo>)
      requires MutualInverses(View().store)
      ensures forall x :: x in infos <==> exists p :: InStore(View().store, p) && p.org == org
                                                      && x == TokenInfo(p.id, p.org, p.createdAt)
      ensures forall i, j :: 0 <= i < j < |infos| ==> infos[i].id != infos[j].id
    {
      var rows := RuntimeRows();
      ListedIdsDiffer(View().store, rows);
      infos := [];
      var i := 0;
      while i < |rows|
        invariant 0 <= i <= |rows|
        invariant forall x :: x in infos <==> exists k :: 0 <= k < i && rows[k].org == org
                                                          && x == TokenInfo(rows[k].id, rows[k].org, rows[k].createdAt)
        invariant forall a, b :: 0 <= a < b < |infos| ==> infos[a].id != infos[b].id
      {
        var p := rows[i];
        assert forall a :: 0 <= a < |infos| ==> infos[a] in infos;
        if p.org == org {
          infos := infos + [TokenInfo(p.id, p.org, p.createdAt)];
        }
        i := i + 1;
      }
    }
  }
}
