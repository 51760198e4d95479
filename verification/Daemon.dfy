/** Local state, and createProject: ordered writes with undo calls. */
module Daemon {
  import opened Base
  import opened Tables
  import opened Store
  import opened Client

  datatype Profile = Profile(project: string, name: string, member: string, memberName: string, hosted: bool, hostKey: Bytes,
                             endpoints: seq<string>)
  datatype LocalAgent = LocalAgent(agent: string, project: string, repository: string)

  /** state.json and, beside it, the keyring. */
  datatype Local = Local(current: string, profiles: map<string, Profile>, agents: map<string, LocalAgent>, keys: map<string, Bytes>)

  function PutProfileLocal(s: Local, profile: Profile, key: Bytes): Local {
    s.(keys := s.keys[profile.project := key], profiles := s.profiles[profile.project := profile], current := profile.project)
  }

  function RemoveProfileLocal(s: Local, p: string): Local {
    Local(if s.current == p then "" else s.current, s.profiles - {p},
          map a | a in s.agents && s.agents[a].project != p :: s.agents[a], s.keys - {p})
  }

  const PRIVATE_KEY_SIZE: nat := 64

  /** Which of PutProfile's two writes fails, if any. */
  datatype PutFault = NoFault | KeyringFails | SaveFails

  class Manager {
    var current: string
    var profiles: map<string, Profile>
    var agents: map<string, LocalAgent>
    var keys: map<string, Bytes>

    function State(): Local
      reads this
    {
      Local(current, profiles, agents, keys)
    }

    constructor ()
      ensures State() == Local("", map[], map[], map[])
    {
      current, profiles, agents, keys := "", map[], map[], map[];
    }

    /** The key is stored first, so a failed save leaves it behind. */
    method PutProfile(profile: Profile, key: Bytes, fault: PutFault) returns (ok: bool)
      modifies this
      ensures ok <==> |key| == PRIVATE_KEY_SIZE && fault.NoFault?
      ensures State() ==
        if |key| != PRIVATE_KEY_SIZE || fault.KeyringFails? then old(State())
        else if fault.SaveFails? then old(State()).(keys := old(keys)[profile.project := key])
        else PutProfileLocal(old(State()), profile, key)
    {
      if |key| != PRIVATE_KEY_SIZE || fault.KeyringFails? {
        return false;
      }
      keys := keys[profile.project := key];
      if fault.SaveFails? {
        return false;
      }
      profiles, current := profiles[profile.project := profile], profile.project;
      ok := true;
    }

    method Use(p: string) returns (ok: bool)
      modifies this`current
      ensures ok <==> p in profiles
      ensures current == if ok then p else old(current)
    {
      ok := p in profiles;
      if ok {
        current := p;
      }
    }

    method UpdateEndpoints(p: string, endpoints: seq<string>) returns (ok: bool)
      modifies this`profiles
      ensures ok <==> p in old(profiles)
      ensures profiles == if ok then old(profiles)[p := old(profiles)[p].(endpoints := endpoints)] else old(profiles)
    {
      ok := p in profiles;
      if ok {
        profiles := profiles[p := profiles[p].(endpoints := endpoints)];
      }
    }

    method RemoveProfile(p: string)
      modifies this
      ensures State() == RemoveProfileLocal(old(State()), p)
    {
      profiles := profiles - {p};
      var todo := agents.Keys;
      while todo != {}
        invariant todo <= old(agents).Keys
        invariant agents == map a | a in old(agents) && (a in todo || old(agents)[a].project != p) :: old(agents)[a]
        invariant State() == Local(old(current), old(profiles) - {p}, agents, old(keys))
      {
        var a :| a in todo;
        if agents[a].project == p {
          agents := agents - {a};
        }
        todo := todo - {a};
      }
      if current == p {
        current := "";
      }
      keys := keys - {p};
    }
  }

  /** No row, profile, agent or key mentions the Project ID yet: it is a new UUID. */
  ghost predicate Fresh(db: DB, s: Local, p: string) {
    && p !in db.projects
    && (forall k :: k in db.members || k in db.invitations || k in db.agents || k in db.requests ==> k.0 != p)
    && p !in s.profiles && p !in s.keys && s.current != p && (forall a :: a in s.agents ==> s.agents[a].project != p)
  }

  /** When the host's handler stores the first invitation: before createProject goes on, after createProject has given up, or never. */
  datatype Timing = Never | InTime | Late

  /**
   * What CreateInvitation over RPC may have done: when the host stored the invitation, which endpoint the client
   * reported as the one that answered, if any, and whether the client got the invitation.
   */
  datatype InviteRpc = InviteRpc(inv: string, key: Bytes, expiresAt: int, timing: Timing, reported: Option<string>, answered: bool)

  /** The profile after OnEndpoint has put the endpoint that answered first. */
  function Reordered(profile: Profile, reported: Option<string>): Profile {
    if reported.None? then profile
    else profile.(endpoints := [reported.value] + Without(reported.value, profile.endpoints))
  }

  /**
   * The endpoint that answered first comes first; the others follow as they were, in their order, and nothing else of
   * the profile changes.
   */
  lemma ReorderedExactly(profile: Profile, e: string, before: seq<string>, after: seq<string>)
    ensures Reordered(profile, None) == profile
    ensures Reordered(profile, Some(e)) == profile.(endpoints := Reordered(profile, Some(e)).endpoints)
    ensures profile.endpoints == before + [e] + after && e !in before && e !in after ==>
      Reordered(profile, Some(e)).endpoints == [e] + before + after
    ensures e !in profile.endpoints ==> Reordered(profile, Some(e)).endpoints == [e] + profile.endpoints
  {
    if profile.endpoints == before + [e] + after && e !in before && e !in after {
      WithoutConcat(e, before + [e], after);
      WithoutConcat(e, before, [e]);
      WithoutIs(e, before);
      WithoutIs(e, after);
      assert [e][1..] == [];
    }
    WithoutIs(e, profile.endpoints);
  }

  lemma {:induction false} WithoutConcat(e: string, a: seq<string>, b: seq<string>)
    ensures Without(e, a + b) == Without(e, a) + Without(e, b)
  {
    if a == [] {
      assert a + b == b;
    } else {
      assert (a + b)[1..] == a[1..] + b;
      WithoutConcat(e, a[1..], b);
    }
  }

  /** Deleting a new Project undoes whatever was added for it and nothing else. */
  lemma DeleteRestores(db: DB, s: Local, p: string, grown: DB)
    requires Fresh(db, s, p)
    requires forall q :: q in db.projects || (q in grown.projects && q != p) ==> q in db.projects && q in grown.projects && grown.projects[q] == db.projects[q]
    requires forall k :: k in db.members || (k in grown.members && k.0 != p) ==> k in db.members && k in grown.members && grown.members[k] == db.members[k]
    requires forall k :: k in db.invitations || (k in grown.invitations && k.0 != p) ==>
      k in db.invitations && k in grown.invitations && grown.invitations[k] == db.invitations[k]
    requires grown.agents == db.agents && grown.requests == db.requests
    ensures DeleteProject(grown, p) == db
  {
    var after := DeleteProject(grown, p);
    assert after.projects == db.projects;
    assert after.members == db.members;
    assert after.invitations == db.invitations;
    assert after.agents == db.agents;
    assert after.requests == db.requests;
  }

  lemma DeleteUndoesCreate(db: DB, s: Local, p: string, project: ProjectRow, owner: string, row: MemberRow)
    requires Fresh(db, s, p)
    ensures CreateProject(db, p, project, p, owner, row).1.None?
    ensures DeleteProject(CreateProject(db, p, project, p, owner, row).0, p) == db
  {
    assert CanAddMember(db, p, owner, row);
    DeleteRestores(db, s, p, CreateProject(db, p, project, p, owner, row).0);
    hide DeleteProject;
  }

  lemma DeleteUndoesInvite(db: DB, s: Local, p: string, project: ProjectRow, owner: string, row: MemberRow, rpc: InviteRpc)
    requires Fresh(db, s, p)
    ensures var created := CreateProject(db, p, project, p, owner, row).0;
      DeleteProject(AddInvitation(created, p, rpc.inv, rpc.key, rpc.expiresAt).0, p) == db
  {
    var created := CreateProject(db, p, project, p, owner, row).0;
    DeleteRestores(db, s, p, AddInvitation(created, p, rpc.inv, rpc.key, rpc.expiresAt).0);
    hide DeleteProject;
  }

  lemma RemoveUndoesPut(db: DB, s: Local, profile: Profile, key: Bytes)
    requires Fresh(db, s, profile.project)
    ensures RemoveProfileLocal(PutProfileLocal(s, profile, key), profile.project) == s.(current := "")
  {
    var after := RemoveProfileLocal(PutProfileLocal(s, profile, key), profile.project);
    assert after.profiles == s.profiles && after.agents == s.agents && after.keys == s.keys;
  }

  /** createProject gets as far as creating the Project's rows. */
  predicate Creates(project: ProjectRow, row: MemberRow, disk: Disk) {
    !IsBlank(project.name) && !IsBlank(row.name) && disk.Spares(3)
  }

  /** createProject gets as far as asking its own host for an invitation. */
  predicate Asks(project: ProjectRow, row: MemberRow, key: Bytes, disk: Disk, fault: PutFault) {
    Creates(project, row, disk) && |key| == PRIVATE_KEY_SIZE && fault.NoFault?
  }

  class Daemon {
    const state: Manager
    const store: Store

    constructor (state: Manager, store: Store)
      ensures this.state == state && this.store == store
    {
      this.state, this.store := state, store;
    }

    /** CreateInvitation over RPC, as far as it changes this device's own store and state. */
    method RequestInvitation(profile: Profile, rpc: InviteRpc)
      requires profile.project in state.profiles && state.profiles[profile.project] == profile
      modifies state`profiles, store`invitations
      ensures store.Db() == if rpc.timing.InTime? then Tables.AddInvitation(old(store.Db()), profile.project, rpc.inv, rpc.key, rpc.expiresAt).0
                            else old(store.Db())
      ensures state.State() == old(state.State()).(profiles := old(state.profiles)[profile.project := Reordered(profile, rpc.reported)])
    {
      if rpc.timing.InTime? {
        var _ := store.AddInvitation(profile.project, rpc.inv, rpc.key, rpc.expiresAt, Disk(0));
      }
      if rpc.reported.Some? {
        var endpoints := PrioritizeEndpoint(rpc.reported.value, profile.endpoints);
        var _ := state.UpdateEndpoints(profile.project, endpoints);
      }
    }

    /** createProject once the host's rows are there. */
    method Settle(profile: Profile, key: Bytes, fault: PutFault, rpc: InviteRpc, encodes: bool) returns (ok: bool)
      modifies state, store
      ensures ok <==> |key| == PRIVATE_KEY_SIZE && fault.NoFault? && rpc.answered && encodes
      ensures var invited := if rpc.timing.InTime? then Tables.AddInvitation(old(store.Db()), profile.project, rpc.inv, rpc.key, rpc.expiresAt).0
                             else old(store.Db());
        store.Db() ==
          if |key| != PRIVATE_KEY_SIZE || !fault.NoFault? then Tables.DeleteProject(old(store.Db()), profile.project)
          else if ok then invited else Tables.DeleteProject(invited, profile.project)
      ensures var put := PutProfileLocal(old(state.State()), Reordered(profile, rpc.reported), key);
        state.State() ==
          if |key| != PRIVATE_KEY_SIZE || fault.KeyringFails? then old(state.State())
          else if fault.SaveFails? then old(state.State()).(keys := old(state.keys)[profile.project := key])
          else if ok then put else RemoveProfileLocal(put, profile.project)
    {
      hide Tables.AddInvitation, Tables.DeleteProject, RemoveProfileLocal, Without;
      var put := state.PutProfile(profile, key, fault);
      if !put {
        var _ := store.DeleteProject(profile.project, Disk(0));
        return false;
      }
      RequestInvitation(profile, rpc);
      assert state.State() == PutProfileLocal(old(state.State()), Reordered(profile, rpc.reported), key);
      if !rpc.answered || !encodes {
        Undo(profile.project);
        return false;
      }
      ok := true;
    }

    /**
     * Exactly what is left behind. Whenever it fails the five tables are as before. The local state is too, unless the
     * profile could not be saved after its key, when the key stays, or the profile was put and the invitation then
     * failed, when no Project is current.
     */
    method CreateProject(p: string, project: ProjectRow, owner: string, row: MemberRow, profile: Profile, key: Bytes,
                         disk: Disk, fault: PutFault, rpc: InviteRpc, encodes: bool)
      returns (ok: bool)
      requires Fresh(store.Db(), state.State(), p) && profile.project == p
      requires rpc.answered || rpc.reported.Some? ==> rpc.timing.InTime?
      modifies state, store
      ensures ok <==> Asks(project, row, key, disk, fault) && rpc.answered && encodes
      ensures state.State() ==
        if !Creates(project, row, disk) || |key| != PRIVATE_KEY_SIZE || fault.KeyringFails? then old(state.State())
        else if fault.SaveFails? then old(state.State()).(keys := old(state.keys)[p := key])
        else if ok then PutProfileLocal(old(state.State()), Reordered(profile, rpc.reported), key)
        else old(state.State()).(current := "")
      ensures store.Db() ==
        if ok then Tables.AddInvitation(Tables.CreateProject(old(store.Db()), p, project, p, owner, row).0, p, rpc.inv, rpc.key, rpc.expiresAt).0
        else old(store.Db())
    {
      DeleteUndoesCreate(store.Db(), state.State(), p, project, owner, row);
      DeleteUndoesInvite(store.Db(), state.State(), p, project, owner, row, rpc);
      RemoveUndoesPut(store.Db(), state.State(), Reordered(profile, rpc.reported), key);
      hide Tables.CreateProject, Tables.AddInvitation, Tables.DeleteProject, RemoveProfileLocal, PutProfileLocal, Reordered, IsBlank;
      if IsBlank(project.name) || IsBlank(row.name) {
        return false;
      }
      var error := store.CreateProject(p, project, p, owner, row, disk);
      if error.Some? {
        return false;
      }
      ok := Settle(profile, key, fault, rpc, encodes);
    }

    /**
     * createProject, and then the handler of its own CreateInvitation where the undo has overtaken it: the handler has
     * found the Project before the undo and stores its invitation after it. Exactly then the tables are not as before.
     */
    method CreateProjectOvertaking(p: string, project: ProjectRow, owner: string, row: MemberRow, profile: Profile, key: Bytes,
                                   disk: Disk, fault: PutFault, rpc: InviteRpc, encodes: bool)
      returns (ok: bool)
      requires Fresh(store.Db(), state.State(), p) && profile.project == p
      requires rpc.answered || rpc.reported.Some? ==> rpc.timing.InTime?
      modifies state, store
      ensures !ok ==> (store.Db() == old(store.Db()) <==> !(Asks(project, row, key, disk, fault) && rpc.timing.Late?))
      ensures !ok && store.Db() != old(store.Db()) ==>
        && p !in store.projects && (p, rpc.inv) !in old(store.invitations)
        && store.Db() == old(store.Db()).(invitations := old(store.invitations)[(p, rpc.inv) := InviteRow(rpc.key, rpc.expiresAt, None)])
    {
      ok := CreateProject(p, project, owner, row, profile, key, disk, fault, rpc, encodes);
      if Asks(project, row, key, disk, fault) && rpc.timing.Late? {
        var _ := store.AddInvitation(p, rpc.inv, rpc.key, rpc.expiresAt, Disk(0));
        assert (p, rpc.inv) in store.invitations;
      }
    }

    method Undo(p: string)
      modifies state, store
      ensures state.State() == RemoveProfileLocal(old(state.State()), p) && store.Db() == Tables.DeleteProject(old(store.Db()), p)
    {
      state.RemoveProfile(p);
      var _ := store.DeleteProject(p, Disk(0));
    }
  }

  /** The current Project survives a failed creation exactly when there was none. */
  lemma CurrentIsNotRestored(db: DB, s: Local, profile: Profile, key: Bytes)
    requires Fresh(db, s, profile.project)
    ensures RemoveProfileLocal(PutProfileLocal(s, profile, key), profile.project) == s <==> s.current == ""
  {
    RemoveUndoesPut(db, s, profile, key);
  }
}
