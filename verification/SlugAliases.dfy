/** Old addresses after renames: the slug_aliases table of srv/slugs.go, the two rename
    transactions that rewrite it, and the lookup that turns an old address into a current one.

    Clients and projects carry their row ids, so that "the client an alias was made for" has a
    meaning that survives a change of slug. `owners` is bookkeeping for the proofs only: the
    row each alias was created for. No operation reads it. */
module SlugAliases {
  import opened Options

  type Slug = string

  /** An address /client/project/; project == "" is the client's portal, as in the table. */
  datatype Path = Path(client: Slug, project: Slug)

  datatype Owner = ClientRow(id: int) | ProjectRow(id: int)

  datatype Tables = Tables(
    clients: map<int, Slug>,
    projects: map<int, Path>,
    aliases: map<Path, Path>,
    owners: map<Path, Owner>)

  predicate HasValue<V(==)>(table: map<int, V>, v: V) {
    exists id :: id in table && table[id] == v
  }

  predicate LiveClient(s: Tables, slug: Slug) {
    HasValue(s.clients, slug)
  }

  predicate LiveProject(s: Tables, path: Path) {
    HasValue(s.projects, path)
  }

  // ----- what every reachable state keeps ------------------------------------------------

  /** clients.slug is a primary key and (client_slug, project_slug) is unique; every project
      belongs to a live client and has a non-empty slug. */
  ghost predicate KeysUnique(s: Tables) {
    && (forall a, b :: a in s.clients && b in s.clients && s.clients[a] == s.clients[b] ==> a == b)
    && (forall a, b :: a in s.projects && b in s.projects && s.projects[a] == s.projects[b] ==> a == b)
    && (forall id :: id in s.clients ==> s.clients[id] != "")
    && (forall id :: id in s.projects ==> s.projects[id].project != "" && LiveClient(s, s.projects[id].client))
  }

  /** Each alias points at the current address of the row it was created for. */
  ghost predicate PointsAtOwner(s: Tables, key: Path)
    requires key in s.aliases && key in s.owners
  {
    match s.owners[key]
    case ClientRow(id) => key.project == "" && id in s.clients && s.aliases[key] == Path(s.clients[id], "")
    case ProjectRow(id) => key.project != "" && id in s.projects && s.aliases[key] == s.projects[id]
  }

  /** No alias key shadows a live address. */
  ghost predicate KeyRetired(s: Tables, key: Path) {
    if key.project == "" then !LiveClient(s, key.client) else !LiveProject(s, key)
  }

  ghost predicate Inv(s: Tables) {
    && KeysUnique(s)
    && s.owners.Keys == s.aliases.Keys
    && (forall key :: key in s.aliases ==> PointsAtOwner(s, key) && KeyRetired(s, key))
  }

  // ----- the two rename transactions -----------------------------------------------------

  predicate CanRenameClient(s: Tables, oldSlug: Slug, newSlug: Slug) {
    newSlug != "" && newSlug != oldSlug && LiveClient(s, oldSlug) && !LiveClient(s, newSlug)
  }

  ghost function ClientNamed(s: Tables, slug: Slug): (id: int)
    requires LiveClient(s, slug)
    ensures id in s.clients && s.clients[id] == slug
  {
    var id :| id in s.clients && s.clients[id] == slug;
    id
  }

  function MoveClient(p: Path, oldSlug: Slug, newSlug: Slug): Path {
    if p.client == oldSlug then p.(client := newSlug) else p
  }

  /** UPDATE, DELETE and INSERT of a client rename, as one table. */
  function ClientRenameRows(rows: map<Path, Path>, oldSlug: Slug, newSlug: Slug): map<Path, Path> {
    (map k | k in rows && k.client != newSlug :: MoveClient(rows[k], oldSlug, newSlug))
      [Path(oldSlug, "") := Path(newSlug, "")]
  }

  function RenamedSlugs(clients: map<int, Slug>, oldSlug: Slug, newSlug: Slug): map<int, Slug> {
    map id | id in clients :: if clients[id] == oldSlug then newSlug else clients[id]
  }

  function MovedProjects(projects: map<int, Path>, oldSlug: Slug, newSlug: Slug): map<int, Path> {
    map id | id in projects :: MoveClient(projects[id], oldSlug, newSlug)
  }

  ghost function RenamedClient(s: Tables, oldSlug: Slug, newSlug: Slug): Tables
    requires CanRenameClient(s, oldSlug, newSlug)
  {
    Tables(
      RenamedSlugs(s.clients, oldSlug, newSlug),
      MovedProjects(s.projects, oldSlug, newSlug),
      ClientRenameRows(s.aliases, oldSlug, newSlug),
      (map k | k in s.owners && k.client != newSlug :: s.owners[k])
        [Path(oldSlug, "") := ClientRow(ClientNamed(s, oldSlug))])
  }

  predicate CanRenameProject(s: Tables, pid: int, newSlug: Slug) {
    && newSlug != "" && pid in s.projects && newSlug != s.projects[pid].project
    && !LiveProject(s, s.projects[pid].(project := newSlug))
  }

  /** UPDATE, DELETE and INSERT of a project rename, as one table. */
  function ProjectRenameRows(rows: map<Path, Path>, was: Path, now: Path): map<Path, Path> {
    (map k | k in rows && k != now :: if rows[k] == was then now else rows[k])[was := now]
  }

  ghost function RenamedProject(s: Tables, pid: int, newSlug: Slug): Tables
    requires CanRenameProject(s, pid, newSlug)
  {
    var was := s.projects[pid];
    var now := was.(project := newSlug);
    Tables(
      s.clients,
      s.projects[pid := now],
      ProjectRenameRows(s.aliases, was, now),
      (map k | k in s.owners && k != now :: s.owners[k])[was := ProjectRow(pid)])
  }

  /** Fulfilment inserts a new client and its first project under free slugs (srv/passes.go). */
  predicate CanFulfil(s: Tables, cid: int, pid: int, client: Slug, project: Slug) {
    && cid !in s.clients && pid !in s.projects && client != "" && project != ""
    && !LiveClient(s, client) && (forall k :: k in s.aliases ==> k.client != client)
  }

  function Fulfilled(s: Tables, cid: int, pid: int, client: Slug, project: Slug): Tables {
    s.(clients := s.clients[cid := client], projects := s.projects[pid := Path(client, project)])
  }

  // ----- runs -----------------------------------------------------------------------------

  datatype Event =
    | RenameClient(oldSlug: Slug, newSlug: Slug)
    | RenameProject(pid: int, newSlug: Slug)
    | Fulfil(cid: int, pid: int, client: Slug, project: Slug)

  /** A refused request changes nothing. */
  ghost function Step(s: Tables, e: Event): Tables {
    match e
    case RenameClient(o, n) => if CanRenameClient(s, o, n) then RenamedClient(s, o, n) else s
    case RenameProject(pid, n) => if CanRenameProject(s, pid, n) then RenamedProject(s, pid, n) else s
    case Fulfil(cid, pid, c, p) => if CanFulfil(s, cid, pid, c, p) then Fulfilled(s, cid, pid, c, p) else s
  }

  ghost function Run(s: Tables, events: seq<Event>): Tables
    decreases |events|
  {
    if events == [] then s else Run(Step(s, events[0]), events[1..])
  }

  lemma RenameClientKeepsInv(s: Tables, o: Slug, n: Slug)
    requires Inv(s) && CanRenameClient(s, o, n)
    ensures Inv(RenamedClient(s, o, n))
  {
    var t := RenamedClient(s, o, n);
    LiveAfterClientRename(s, o, n);
    forall key | key in t.aliases
      ensures PointsAtOwner(t, key) && KeyRetired(t, key)
    {
      if key != Path(o, "") {
        assert PointsAtOwner(s, key) && KeyRetired(s, key);
      }
    }
  }

  /** Who is live after a client rename: the new slug instead of the old, projects moved along. */
  lemma LiveAfterClientRename(s: Tables, o: Slug, n: Slug)
    requires KeysUnique(s) && CanRenameClient(s, o, n)
    ensures var t := RenamedClient(s, o, n);
      && KeysUnique(t)
      && (forall c :: LiveClient(t, c) <==> c == n || (c != o && LiveClient(s, c)))
      && (forall p :: LiveProject(t, p) <==> p.client != o && LiveProject(s, MoveClient(p, n, o)))
  {
    var t := RenamedClient(s, o, n);
    forall c { LiveClientAfterRename(s, o, n, c); }
    forall id | id in s.projects ensures s.projects[id].client != n {
      assert LiveClient(s, s.projects[id].client);
    }
    forall p { LiveProjectAfterRename(s, o, n, p); }
    forall a, b | a in t.projects && b in t.projects && t.projects[a] == t.projects[b] ensures a == b {
      assert s.projects[a] == s.projects[b];
    }
  }

  lemma LiveClientAfterRename(s: Tables, o: Slug, n: Slug, c: Slug)
    requires KeysUnique(s) && CanRenameClient(s, o, n)
    ensures LiveClient(RenamedClient(s, o, n), c) <==> c == n || (c != o && LiveClient(s, c))
  {
    var t := RenamedClient(s, o, n);
    assert t.clients[ClientNamed(s, o)] == n;
    if c != o && LiveClient(s, c) {
      assert t.clients[ClientNamed(s, c)] == c;
    }
  }

  lemma LiveProjectAfterRename(s: Tables, o: Slug, n: Slug, p: Path)
    requires KeysUnique(s) && CanRenameClient(s, o, n)
    requires forall id :: id in s.projects ==> s.projects[id].client != n
    ensures LiveProject(RenamedClient(s, o, n), p) <==> p.client != o && LiveProject(s, MoveClient(p, n, o))
  {
    var t := RenamedClient(s, o, n);
    if LiveProject(t, p) {
      var id :| id in t.projects && t.projects[id] == p;
      assert s.projects[id] == MoveClient(p, n, o);
    }
    if p.client != o && LiveProject(s, MoveClient(p, n, o)) {
      var id :| id in s.projects && s.projects[id] == MoveClient(p, n, o);
      assert t.projects[id] == p;
    }
  }

  lemma RenameProjectKeepsInv(s: Tables, pid: int, n: Slug)
    requires Inv(s) && CanRenameProject(s, pid, n)
    ensures Inv(RenamedProject(s, pid, n))
  {
    var t := RenamedProject(s, pid, n);
    LiveAfterProjectRename(s, pid, n);
    forall key | key in t.aliases
      ensures PointsAtOwner(t, key) && KeyRetired(t, key)
    {
      if key != s.projects[pid] {
        assert PointsAtOwner(s, key) && KeyRetired(s, key);
      }
    }
  }

  lemma LiveAfterProjectRename(s: Tables, pid: int, n: Slug)
    requires KeysUnique(s) && CanRenameProject(s, pid, n)
    ensures var t := RenamedProject(s, pid, n);
      && KeysUnique(t)
      && (forall p :: LiveProject(t, p) <==> p == t.projects[pid] || (p != s.projects[pid] && LiveProject(s, p)))
  {
    var t := RenamedProject(s, pid, n);
    forall id | id in t.projects ensures LiveClient(t, t.projects[id].client) {
      assert LiveClient(s, s.projects[id].client);
    }
    forall p ensures LiveProject(t, p) <==> p == t.projects[pid] || (p != s.projects[pid] && LiveProject(s, p)) {
      if p == t.projects[pid] {
        assert LiveProject(t, p);
      } else if p != s.projects[pid] && LiveProject(s, p) {
        var id :| id in s.projects && s.projects[id] == p;
        assert t.projects[id] == p;
      }
    }
  }

  lemma FulfilKeepsInv(s: Tables, cid: int, pid: int, c: Slug, p: Slug)
    requires Inv(s) && CanFulfil(s, cid, pid, c, p)
    ensures Inv(Fulfilled(s, cid, pid, c, p))
  {
    var t := Fulfilled(s, cid, pid, c, p);
    assert t.clients[cid] == c;
    forall id | id in s.projects ensures LiveClient(t, s.projects[id].client) && s.projects[id].client != c {
      var k :| k in s.clients && s.clients[k] == s.projects[id].client;
      assert t.clients[k] == s.projects[id].client;
    }
    forall key | key in t.aliases
      ensures PointsAtOwner(t, key) && KeyRetired(t, key)
    {
      assert PointsAtOwner(s, key) && KeyRetired(s, key);
    }
  }

  /** Every run keeps: aliases point at the current address of their row, and never shadow a
      live client or project. */
  lemma {:induction false} RunKeepsInv(s: Tables, events: seq<Event>)
    requires Inv(s)
    ensures Inv(Run(s, events))
    decreases |events|
  {
    if events != [] {
      match events[0] {
        case RenameClient(o, n) => if CanRenameClient(s, o, n) { RenameClientKeepsInv(s, o, n); }
        case RenameProject(pid, n) => if CanRenameProject(s, pid, n) { RenameProjectKeepsInv(s, pid, n); }
        case Fulfil(cid, pid, c, p) => if CanFulfil(s, cid, pid, c, p) { FulfilKeepsInv(s, cid, pid, c, p); }
      }
      RunKeepsInv(Step(s, events[0]), events[1..]);
    }
  }

  /** The alias row stored under this key is in the table after every prefix of the run. */
  ghost predicate Survives(s: Tables, events: seq<Event>, key: Path)
    decreases |events|
  {
    key in s.aliases && (events == [] || Survives(Step(s, events[0]), events[1..], key))
  }

  lemma StepKeepsOwner(s: Tables, e: Event, key: Path)
    requires Inv(s) && key in s.aliases && key in Step(s, e).aliases
    ensures key in Step(s, e).owners && Step(s, e).owners[key] == s.owners[key]
  {
    assert PointsAtOwner(s, key) && KeyRetired(s, key);
  }

  /** An alias row that survives a run still belongs to the row it was created for, and still
      points at that row's current address, however often either was renamed on the way. */
  lemma {:induction false} SurvivingAliasFollowsOwner(s: Tables, events: seq<Event>, key: Path)
    requires Inv(s) && Survives(s, events, key)
    ensures var t := Run(s, events);
      && key in t.aliases && key in t.owners && t.owners[key] == s.owners[key]
      && match s.owners[key] {
           case ClientRow(id) => id in t.clients && t.aliases[key] == Path(t.clients[id], "")
           case ProjectRow(id) => id in t.projects && t.aliases[key] == t.projects[id]
         }
    decreases |events|
  {
    if events == [] {
      assert PointsAtOwner(s, key);
    } else {
      var s1 := Step(s, events[0]);
      RunKeepsInv(s, [events[0]]);
      assert Run(s, [events[0]]) == Run(s1, []) == s1;
      StepKeepsOwner(s, events[0], key);
      SurvivingAliasFollowsOwner(s1, events[1..], key);
    }
  }

  // ----- looking an address up ------------------------------------------------------------

  /** One redirect: the exact pair first, then the client alone (srv/slugs.go:225-240). */
  function Resolve(aliases: map<Path, Path>, p: Path): Option<Path> {
    if p.project != "" && p in aliases then Some(aliases[p])
    else if Path(p.client, "") in aliases then Some(Path(aliases[Path(p.client, "")].client, p.project))
    else None
  }

  /** The address a browser ends at after following at most `hops` redirects. */
  function Follow(aliases: map<Path, Path>, p: Path, hops: nat): Path
    decreases hops
  {
    if hops == 0 || Resolve(aliases, p).None? then p
    else Follow(aliases, Resolve(aliases, p).value, hops - 1)
  }

  /** A live address is never redirected away, even though the lookup runs first. */
  lemma LiveIsNotRedirected(s: Tables, p: Path)
    requires Inv(s)
    requires if p.project == "" then LiveClient(s, p.client) else LiveProject(s, p)
    ensures Resolve(s.aliases, p) == None
  {
    assert p in s.aliases ==> KeyRetired(s, p);
    var portal := Path(p.client, "");
    assert portal in s.aliases ==> KeyRetired(s, portal);
  }

  /** From any address whatever, at most two redirects lead to one that is not redirected. */
  lemma TwoHopsSettle(s: Tables, p: Path)
    requires Inv(s)
    ensures Resolve(s.aliases, Follow(s.aliases, p, 2)) == None
  {
    var a := s.aliases;
    if Resolve(a, p).Some? {
      var q := Resolve(a, p).value;
      if p.project != "" && p in a {
        assert PointsAtOwner(s, p);
        LiveIsNotRedirected(s, q);
      } else {
        var portal := Path(p.client, "");
        assert PointsAtOwner(s, portal);
        assert LiveClient(s, q.client);
        LiveIsNotRedirected(s, Path(q.client, ""));
        if Resolve(a, q).Some? {
          assert PointsAtOwner(s, q);
          LiveIsNotRedirected(s, a[q]);
          assert Follow(a, p, 2) == Follow(a, q, 1) == Follow(a, a[q], 0);
        }
      }
    }
  }

  /** The address leads to this project: it is the project's own, or redirects end there. */
  predicate Reaches(s: Tables, p: Path, pid: int) {
    pid in s.projects && Follow(s.aliases, p, 2) == s.projects[pid]
  }

  /** How an address reaches a project: directly, by its own alias, by its client's alias, or
      by its client's alias and then a project alias. */
  lemma Routes(s: Tables, p: Path, pid: int)
    requires Inv(s) && p.project != "" && pid in s.projects
    ensures Reaches(s, p, pid) <==>
      var portal := Path(p.client, "");
      if p in s.aliases then s.aliases[p] == s.projects[pid]
      else if portal in s.aliases then
        var q := Path(s.aliases[portal].client, p.project);
        if q in s.aliases then s.aliases[q] == s.projects[pid] else q == s.projects[pid]
      else p == s.projects[pid]
  {
    var a := s.aliases;
    if p in a {
      assert PointsAtOwner(s, p);
      LiveIsNotRedirected(s, a[p]);
      assert Follow(a, p, 2) == Follow(a, a[p], 1) == a[p];
    } else {
      var portal := Path(p.client, "");
      if portal in a {
        var q := Path(a[portal].client, p.project);
        assert PointsAtOwner(s, portal);
        assert LiveClient(s, q.client);
        LiveIsNotRedirected(s, Path(q.client, ""));
        assert Follow(a, p, 2) == Follow(a, q, 1);
        if q in a {
          assert Follow(a, q, 1) == Follow(a, a[q], 0) == a[q];
        }
      }
    }
  }

  /** After a client rename, an address that led to a project still does, except exactly when
      (1) it is under the new slug and the project was not at the same place under the old one
      (the rename frees the new slug of aliases), or (2) it came through another alias of this
      client and then needed a project alias under the old slug. */
  lemma ClientRenameReach(s: Tables, o: Slug, n: Slug, p: Path, pid: int)
    requires Inv(s) && CanRenameClient(s, o, n)
    requires p.project != "" && Reaches(s, p, pid)
    ensures Reaches(RenamedClient(s, o, n), p, pid) <==>
      if p.client == n then s.projects[pid] == Path(o, p.project)
      else !(p !in s.aliases && Path(p.client, "") in s.aliases && s.aliases[Path(p.client, "")].client == o
             && Path(o, p.project) in s.aliases)
  {
    var t := RenamedClient(s, o, n);
    RenameClientKeepsInv(s, o, n);
    LiveAfterClientRename(s, o, n);
    Routes(s, p, pid);
    Routes(t, p, pid);
    var portal, mid := Path(p.client, ""), Path(o, p.project);
    assert p in s.aliases ==> KeyRetired(s, p) && PointsAtOwner(s, p);
    assert portal in s.aliases ==> KeyRetired(s, portal) && PointsAtOwner(s, portal);
    assert mid in s.aliases ==> KeyRetired(s, mid);
    assert LiveProject(s, s.projects[pid]);
  }

  /** After a project rename, an address that led to a project still does, except exactly when
      its route used the alias of the new address, which now names the renamed project. */
  lemma ProjectRenameReach(s: Tables, rid: int, n: Slug, p: Path, pid: int)
    requires Inv(s) && CanRenameProject(s, rid, n)
    requires p.project != "" && Reaches(s, p, pid)
    ensures Reaches(RenamedProject(s, rid, n), p, pid) <==>
      var now := s.projects[rid].(project := n);
      var viaClient := p !in s.aliases && Path(p.client, "") in s.aliases
                       && Path(s.aliases[Path(p.client, "")].client, p.project) == now;
      pid == rid || !((p == now || viaClient) && now in s.aliases)
  {
    var t := RenamedProject(s, rid, n);
    RenameProjectKeepsInv(s, rid, n);
    Routes(s, p, pid);
    Routes(t, p, pid);
  }

  /** Every pair live just before a client rename is served, or redirected once, to the same project. */
  lemma LivePairSurvivesClientRename(s: Tables, o: Slug, n: Slug, pid: int)
    requires Inv(s) && CanRenameClient(s, o, n) && pid in s.projects
    ensures var t := RenamedClient(s, o, n); Follow(t.aliases, s.projects[pid], 1) == t.projects[pid]
  {
    var t := RenamedClient(s, o, n);
    RenameClientKeepsInv(s, o, n);
    var p := s.projects[pid];
    assert LiveProject(s, p) && LiveProject(t, t.projects[pid]);
    assert p in s.aliases ==> KeyRetired(s, p);
    if p.client != o {
      LiveIsNotRedirected(t, p);
    }
  }

  lemma LivePairSurvivesProjectRename(s: Tables, rid: int, n: Slug, pid: int)
    requires Inv(s) && CanRenameProject(s, rid, n) && pid in s.projects
    ensures var t := RenamedProject(s, rid, n); Follow(t.aliases, s.projects[pid], 1) == t.projects[pid]
  {
    var t := RenamedProject(s, rid, n);
    RenameProjectKeepsInv(s, rid, n);
    if pid != rid {
      assert t.projects[pid] == s.projects[pid];
      LiveIsNotRedirected(t, s.projects[pid]);
    }
  }
}
