/** The server's side of slug renames: the tables, the cached copy of the alias table, and the
    handlers that change both (srv/slugs.go). Each handler is proved against the transaction it
    performs in SlugAliases. */
module AliasServer {
  import opened Options
  import opened SlugAliases
  import SlugPickers

  /** The statement of a rename that fails, if any: the transaction's begin, the lookups, one of the
      writes, or the commit. */
  datatype Fault = NoFault | AtBegin | AtLookup | AtNewLookup | AtWrite(k: nat) | AtCommit

  datatype Code = Ok | BadRequest | NotFound | Conflict | ServerError

  /** The three statements of a client rename on slug_aliases, in their order. */
  method RewriteForClient(table: map<Path, Path>, oldSlug: Slug, newSlug: Slug) returns (rows: map<Path, Path>)
    ensures rows == ClientRenameRows(table, oldSlug, newSlug)
  {
    rows := map k | k in table ::
      if table[k].client == oldSlug then Path(newSlug, table[k].project) else table[k];
    rows := map k | k in rows && k.client != newSlug :: rows[k];
    rows := rows[Path(oldSlug, "") := Path(newSlug, "")];
  }

  method RewriteClients(table: map<int, Slug>, oldSlug: Slug, newSlug: Slug) returns (rows: map<int, Slug>)
    ensures rows == RenamedSlugs(table, oldSlug, newSlug)
  {
    rows := map id | id in table :: if table[id] == oldSlug then newSlug else table[id];
  }

  method RewriteProjects(table: map<int, Path>, oldSlug: Slug, newSlug: Slug) returns (rows: map<int, Path>)
    ensures rows == MovedProjects(table, oldSlug, newSlug)
  {
    rows := map id | id in table ::
      if table[id].client == oldSlug then Path(newSlug, table[id].project) else table[id];
    forall id | id in table ensures rows[id] == MoveClient(table[id], oldSlug, newSlug) {
    }
  }

  /** The three statements of a project rename on slug_aliases, in their order. */
  method RewriteForProject(table: map<Path, Path>, client: Slug, oldSlug: Slug, newSlug: Slug)
    returns (rows: map<Path, Path>)
    ensures rows == ProjectRenameRows(table, Path(client, oldSlug), Path(client, newSlug))
  {
    rows := map k | k in table ::
      if table[k].client == client && table[k].project == oldSlug then table[k].(project := newSlug) else table[k];
    rows := map k | k in rows && !(k.client == client && k.project == newSlug) :: rows[k];
    rows := rows[Path(client, oldSlug) := Path(client, newSlug)];
  }

  /** A slug that no client and no alias bears has no project either. */
  lemma NothingUnder(s: Tables, client: Slug)
    requires Inv(s) && !SlugPickers.ClientSlugTaken(s, client)
    ensures SlugPickers.UsedSlugs(s, client) == {}
  {
  }

  class Server {
    var clients: map<int, Slug>
    var projects: map<int, Path>
    var aliases: map<Path, Path>  // table slug_aliases
    var cache: map<Path, Path>    // s.aliases, reloaded after each commit
    ghost var owners: map<Path, Owner>

    ghost function State(): Tables
      reads this
    {
      Tables(clients, projects, aliases, owners)
    }

    ghost predicate Valid()
      reads this
    {
      Inv(State()) && cache == aliases
    }

    constructor ()
      ensures Valid() && State() == Tables(map[], map[], map[], map[])
    {
      clients, projects, aliases, cache, owners := map[], map[], map[], map[], map[];
    }

    /** POST /api/admin/clients/{slug}/rename. The writes work on the transaction, and the tables
        change only at COMMIT; of the eight writes, those to tables outside this model change nothing
        here but can fail. */
    method RenameClient(oldSlug: Slug, newSlug: Slug, fault: Fault) returns (code: Code)
      requires Valid()
      modifies this
      ensures Valid()
      ensures code == Ok <==>
        old(CanRenameClient(State(), oldSlug, newSlug)) && (fault == NoFault || (fault.AtWrite? && fault.k >= 8))
      ensures State() == if code == Ok then Step(old(State()), Event.RenameClient(oldSlug, newSlug)) else old(State())
      ensures code == BadRequest <==> newSlug == "" || newSlug == oldSlug
      ensures code == NotFound <==>
        newSlug != "" && newSlug != oldSlug && fault != AtBegin
        && (fault == AtLookup || !old(LiveClient(State(), oldSlug)))
      ensures code == Conflict <==>
        newSlug != "" && newSlug != oldSlug && fault != AtBegin && fault != AtLookup
        && old(LiveClient(State(), oldSlug))
        && (fault == AtNewLookup || old(LiveClient(State(), newSlug)))
    {
      if newSlug == "" || newSlug == oldSlug {
        return BadRequest;
      }
      if fault == AtBegin {
        return ServerError;
      }
      if fault == AtLookup || !HasValue(clients, oldSlug) {
        return NotFound;
      }
      if fault == AtNewLookup || HasValue(clients, newSlug) {
        return Conflict;
      }
      code := MoveClientRows(oldSlug, newSlug, fault);
    }

    method MoveClientRows(oldSlug: Slug, newSlug: Slug, fault: Fault) returns (code: Code)
      requires Valid() && CanRenameClient(State(), oldSlug, newSlug)
      requires fault == NoFault || fault == AtCommit || fault.AtWrite?
      modifies this
      ensures Valid()
      ensures code == if fault == NoFault || (fault.AtWrite? && fault.k >= 8) then Ok else ServerError
      ensures State() == if code == Ok then RenamedClient(old(State()), oldSlug, newSlug) else old(State())
    {
      if fault == AtWrite(0) { return ServerError; }
      var txClients := RewriteClients(clients, oldSlug, newSlug);
      if fault == AtWrite(1) { return ServerError; }
      var txProjects := RewriteProjects(projects, oldSlug, newSlug);
      if fault == AtWrite(2) || fault == AtWrite(3) || fault == AtWrite(4) { return ServerError; }
      var txAliases := RewriteForClient(aliases, oldSlug, newSlug);
      if fault == AtWrite(5) || fault == AtWrite(6) || fault == AtWrite(7) || fault == AtCommit {
        return ServerError;
      }
      ghost var t := RenamedClient(State(), oldSlug, newSlug);
      RenameClientKeepsInv(State(), oldSlug, newSlug);
      clients, projects, aliases := txClients, txProjects, txAliases;
      owners := t.owners;
      cache := aliases;
      assert State() == t;
      return Ok;
    }

    /** POST /api/admin/projects/{id}/slug. The first write meets the unique index on the address. */
    method RenameProjectSlug(pid: int, newSlug: Slug, fault: Fault) returns (code: Code)
      requires Valid()
      modifies this
      ensures Valid()
      ensures code == Ok <==>
        old(CanRenameProject(State(), pid, newSlug))
        && (fault == NoFault || fault == AtNewLookup || (fault.AtWrite? && fault.k >= 4))
      ensures State() == if code == Ok then Step(old(State()), RenameProject(pid, newSlug)) else old(State())
      ensures code == NotFound <==>
        newSlug != "" && fault != AtBegin && (fault == AtLookup || pid !in old(projects))
      ensures code == BadRequest <==>
        newSlug == ""
        || (fault != AtBegin && fault != AtLookup && pid in old(projects) && newSlug == old(projects)[pid].project)
      ensures code == Conflict <==>
        newSlug != "" && fault != AtBegin && fault != AtLookup && fault != AtWrite(0)
        && pid in old(projects) && newSlug != old(projects)[pid].project
        && old(LiveProject(State(), projects[pid].(project := newSlug)))
    {
      if newSlug == "" {
        return BadRequest;
      }
      if fault == AtBegin {
        return ServerError;
      }
      if fault == AtLookup || pid !in projects {
        return NotFound;
      }
      var was := projects[pid];
      if newSlug == was.project {
        return BadRequest;
      }
      if fault == AtWrite(0) {
        return ServerError;
      }
      if HasValue(projects, Path(was.client, newSlug)) {
        return Conflict;
      }
      code := MoveProjectRows(pid, newSlug, fault);
    }

    method MoveProjectRows(pid: int, newSlug: Slug, fault: Fault) returns (code: Code)
      requires Valid() && CanRenameProject(State(), pid, newSlug) && fault != AtWrite(0)
      modifies this
      ensures Valid()
      ensures code == if fault == AtCommit || (fault.AtWrite? && fault.k < 4) then ServerError else Ok
      ensures State() == if code == Ok then RenamedProject(old(State()), pid, newSlug) else old(State())
    {
      var was := projects[pid];
      var txProjects := projects[pid := Path(was.client, newSlug)];
      var txAliases := RewriteForProject(aliases, was.client, was.project, newSlug);
      if fault == AtWrite(1) || fault == AtWrite(2) || fault == AtWrite(3) || fault == AtCommit {
        return ServerError;
      }
      ghost var t := RenamedProject(State(), pid, newSlug);
      RenameProjectKeepsInv(State(), pid, newSlug);
      projects, aliases := txProjects, txAliases;
      owners := t.owners;
      cache := aliases;
      assert State() == t;
      return Ok;
    }

    // The first book number under a client slug that is new.
    method FirstBookSlug(client: Slug) returns (project: Slug)
      requires SlugPickers.UsedSlugs(Tables(map[], projects, aliases, map[]), client) == {}
      ensures project == SlugPickers.BookSlug(1) && project != ""
    {
      var picked := SlugPickers.NextProjectSlug(Tables(clients, projects, aliases, map[]), client);
      assert SlugPickers.UsedSlugs(Tables(clients, projects, aliases, map[]), client)
          == SlugPickers.UsedSlugs(Tables(map[], projects, aliases, map[]), client);
      return picked.value;
    }

    /** The slugs of one fulfilment: the first free client slug, and that client's first book
        number, which is 1 since nothing has ever stood under the slug. */
    method FulfilSlugs(cid: int, pid: int, base: Slug) returns (code: Code, made: Path)
      requires Valid() && base != "" && cid !in clients && pid !in projects
      modifies this
      ensures Valid()
      ensures code == Ok ==>
        CanFulfil(old(State()), cid, pid, made.client, made.project)
        && State() == Fulfilled(old(State()), cid, pid, made.client, made.project)
        && made.project == SlugPickers.BookSlug(1)
        && exists i :: 1 <= i < 1000 && made.client == SlugPickers.ClientCandidate(base, i)
             && forall j :: 1 <= j < i ==>
                  SlugPickers.ClientSlugTaken(old(State()), SlugPickers.ClientCandidate(base, j))
      ensures code != Ok ==> State() == old(State())
      ensures code == Ok <==>
        exists j :: 1 <= j < 1000
                    && !SlugPickers.ClientSlugTaken(old(State()), SlugPickers.ClientCandidate(base, j))
    {
      ghost var s := State();
      made := Path("", "");
      var client := SlugPickers.UniqueClientSlug(Tables(clients, projects, aliases, map[]), base);
      if client.None? {
        return ServerError, made;
      }
      NothingUnder(s, client.value);
      clients := clients[cid := client.value];
      assert SlugPickers.UsedSlugs(Tables(map[], projects, aliases, map[]), client.value)
          == SlugPickers.UsedSlugs(s, client.value);
      var project := FirstBookSlug(client.value);
      made := Path(client.value, project);
      projects := projects[pid := made];
      FulfilKeepsInv(s, cid, pid, made.client, made.project);
      return Ok, made;
    }

    /** resolveSlugAlias: reads the cache only. */
    method ResolveSlugAlias(client: Slug, project: Slug) returns (target: Option<Path>)
      requires Valid()
      ensures target == Resolve(aliases, Path(client, project))
    {
      if |cache| == 0 {
        return None;
      }
      if project != "" && Path(client, project) in cache {
        return Some(cache[Path(client, project)]);
      }
      if Path(client, "") in cache {
        return Some(Path(cache[Path(client, "")].client, project));
      }
      return None;
    }

    /** redirectAliasedPath: the segments of the redirect target, or nothing when the request
        is served as it is. Segments after the second are never touched. */
    method RedirectAliasedPath(parts: seq<string>) returns (target: Option<seq<string>>)
      requires Valid()
      ensures target.Some? <==>
        |parts| > 0 && Resolve(aliases, Path(parts[0], if |parts| >= 2 then parts[1] else "")).Some?
      ensures target.Some? ==>
        var to := Resolve(aliases, Path(parts[0], if |parts| >= 2 then parts[1] else "")).value;
        target.value == if |parts| >= 2 then [to.client, to.project] + parts[2..] else [to.client]
    {
      if |parts| == 0 {
        return None;
      }
      var project := "";
      if |parts| >= 2 {
        project := parts[1];
      }
      var r := ResolveSlugAlias(parts[0], project);
      if r.None? {
        return None;
      }
      var newParts := [r.value.client] + parts[1..];
      if project != "" {
        newParts := newParts[1 := r.value.project];
      }
      return Some(newParts);
    }
  }

  /** A client rename, for one client with one project. */
  lemma RenameOnlyClient(s: Tables, o: Slug, n: Slug, project: Slug)
    requires n != "" && o != n && s.clients == map[1 := o] && s.projects == map[7 := Path(o, project)]
    ensures CanRenameClient(s, o, n)
    ensures var t := RenamedClient(s, o, n);
      t.clients == map[1 := n] && t.projects == map[7 := Path(n, project)]
      && t.aliases == ClientRenameRows(s.aliases, o, n)
  {
    assert s.clients[1] == o;
  }

  /** A project rename, for one client with one project. */
  lemma RenameOnlyProject(s: Tables, client: Slug, q: Slug, r: Slug)
    requires r != "" && q != r && s.clients == map[1 := client] && s.projects == map[7 := Path(client, q)]
    ensures CanRenameProject(s, 7, r)
    ensures var t := RenamedProject(s, 7, r);
      t.clients == map[1 := client] && t.projects == map[7 := Path(client, r)]
      && t.aliases == ProjectRenameRows(s.aliases, Path(client, q), Path(client, r))
  {
  }

  lemma RunOfThree(s: Tables, e1: Event, e2: Event, e3: Event)
    ensures Run(s, [e1, e2, e3]) == Step(Step(Step(s, e1), e2), e3)
  {
    assert [e1, e2, e3][1..] == [e2, e3] && [e2, e3][1..] == [e3] && [e3][1..] == [];
    assert Run(Step(Step(s, e1), e2), [e3]) == Run(Step(Step(Step(s, e1), e2), e3), []);
  }

  /** The alias table after the three renames below: /c/q goes to /e/q and no further. */
  lemma RowsOfThreeRenames(c: Slug, d: Slug, e: Slug, q: Slug, r: Slug)
    requires c != d && d != e && c != e && q != r && q != ""
    ensures
      var rows := ClientRenameRows(ProjectRenameRows(ClientRenameRows(map[], c, d), Path(d, q), Path(d, r)), d, e);
      Follow(rows, Path(c, q), 2) == Path(e, q)
  {
    var rows := ClientRenameRows(ProjectRenameRows(ClientRenameRows(map[], c, d), Path(d, q), Path(d, r)), d, e);
    assert Resolve(rows, Path(c, q)) == Some(Path(e, q));
    assert Follow(rows, Path(c, q), 2) == Follow(rows, Path(e, q), 1) == Path(e, q);
  }

  function OneBook(c: Slug, q: Slug): Tables {
    Tables(map[1 := c], map[7 := Path(c, q)], map[], map[])
  }

  lemma OneBookIsLive(c: Slug, q: Slug)
    requires c != "" && q != ""
    ensures Inv(OneBook(c, q)) && Reaches(OneBook(c, q), Path(c, q), 7)
  {
    var s := OneBook(c, q);
    assert HasValue(s.clients, c) by { assert s.clients[1] == c; }
  }

  lemma ThreeRenames(c: Slug, d: Slug, e: Slug, q: Slug, r: Slug)
    requires c != d && d != e && q != r && d != "" && e != "" && r != ""
    ensures
      var t := Run(OneBook(c, q), [RenameClient(c, d), RenameProject(7, r), RenameClient(d, e)]);
      t.projects == map[7 := Path(e, r)]
      && t.aliases == ClientRenameRows(ProjectRenameRows(ClientRenameRows(map[], c, d), Path(d, q), Path(d, r)), d, e)
  {
    var s := OneBook(c, q);
    RunOfThree(s, RenameClient(c, d), RenameProject(7, r), RenameClient(d, e));
    RenameOnlyClient(s, c, d, q);
    var s1 := RenamedClient(s, c, d);
    RenameOnlyProject(s1, d, q, r);
    RenameOnlyClient(RenamedProject(s1, 7, r), d, e, r);
  }

  /** Renaming client c to d, then its project q to r, then client d to e loses /c/q: it was live
      at the start and leads nowhere at the end. ClientRenameReach and ProjectRenameReach say for
      each rename exactly which addresses it loses. */
  lemma LostAddress(c: Slug, d: Slug, e: Slug, q: Slug, r: Slug)
    requires c != d && d != e && c != e && q != r && c != "" && d != "" && e != "" && q != "" && r != ""
    ensures Inv(OneBook(c, q)) && Reaches(OneBook(c, q), Path(c, q), 7)
    ensures
      var t := Run(OneBook(c, q), [RenameClient(c, d), RenameProject(7, r), RenameClient(d, e)]);
      t.projects == map[7 := Path(e, r)] && !Reaches(t, Path(c, q), 7)
  {
    OneBookIsLive(c, q);
    ThreeRenames(c, d, e, q, r);
    RowsOfThreeRenames(c, d, e, q, r);
  }
}
